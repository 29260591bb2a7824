/** Every step of the runtime keeps its invariant. */
module RuntimeInvariant {
  import opened Wrappers
  import opened EventSpec
  import opened Runtime

  // ---------- tasks ----------

  lemma PushTasks(q: seq<Task>, h: map<nat, Slice>, active: int, places: seq<Place>, x: Task)
    requires TasksInv(q, h, active, places) && x.id == |places|
    ensures TasksInv(q + [x], h, active, places + [Enqueued])
  {
    var q', p' := q + [x], places + [Enqueued];
    assert q'[|q|] == x;
    assert forall y :: y in q ==> y in q';
    forall id: nat | id < |p'| && p'[id] == Enqueued ensures InQueue(q', id) {
      if id < |places| { assert InQueue(q, id); }
    }
  }

  /** The queue without the element at i. */
  lemma Erased(q: seq<Task>, i: nat)
    requires i < |q| && forall a, b :: 0 <= a < b < |q| ==> q[a].id != q[b].id
    ensures var q' := q[..i] + q[i + 1..];
      && (forall x :: x in q' <==> x in q && x != q[i])
      && (forall x :: x in q && x != q[i] ==> x.id != q[i].id)
      && (forall a, b :: 0 <= a < b < |q'| ==> q'[a].id != q'[b].id)
  {
    var q' := q[..i] + q[i + 1..];
    forall x | x in q && x != q[i] ensures x in q' {
      var k :| 0 <= k < |q| && q[k] == x;
      assert k < i ==> q'[k] == x;
      assert k > i ==> q'[k - 1] == x;
    }
  }

  lemma PickTasks(q: seq<Task>, h: map<nat, Slice>, active: int, places: seq<Place>, t: nat, i: nat)
    requires TasksInv(q, h, active, places) && t !in h && i < |q|
    ensures q[i].id < |places|
    ensures TasksInv(q[..i] + q[i + 1..], h[t := Slice(q[i], Picked)], active + 1, places[q[i].id := HeldBy(t)])
  {
    Erased(q, i);
    assert q[i] in q;
    var q', h', p' := q[..i] + q[i + 1..], h[t := Slice(q[i], Picked)], places[q[i].id := HeldBy(t)];
    assert h'.Keys == h.Keys + {t};
    forall id: nat | id < |p'| && p'[id] == Enqueued ensures InQueue(q', id) {
      assert InQueue(q, id);
      var x :| x in q && x.id == id;
      assert x in q';
    }
  }

  lemma ReleaseTasks(q: seq<Task>, h: map<nat, Slice>, active: int, places: seq<Place>, t: nat)
    requires TasksInv(q, h, active, places) && t in h
    ensures h[t].task.id < |places|
    ensures TasksInv(q, h - {t}, active - 1, places[h[t].task.id := Done])
  {
    assert (h - {t}).Keys == h.Keys - {t};
    var p' := places[h[t].task.id := Done];
    forall id: nat | id < |p'| && p'[id] == Enqueued ensures InQueue(q, id) { assert places[id] == Enqueued; }
  }

  lemma PhaseTasks(q: seq<Task>, h: map<nat, Slice>, active: int, places: seq<Place>, t: nat, p: Phase)
    requires TasksInv(q, h, active, places) && t in h
    ensures TasksInv(q, h[t := h[t].(phase := p)], active, places)
  {
    assert h[t := h[t].(phase := p)].Keys == h.Keys;
    hide InQueue;
  }

  // ---------- fibers ----------

  lemma QueuesMore(q: seq<Task>, x: Task, id: nat, f: nat)
    requires QueuesFiber(q, id, f)
    ensures QueuesFiber(q + [x], id, f)
  {
    var y :| y in q && y.id == id && y.work == FiberWork(f);
    assert y in q + [x];
  }

  lemma PushCallback(q: seq<Task>, h: map<nat, Slice>, fb: map<nat, FiberRecord>, fds: seq<FdRecord>, x: Task)
    requires FibersInv(q, h, fb, fds) && x.work.CbWork?
    ensures FibersInv(q + [x], h, fb, fds)
  {
    hide QueuesFiber, RunsOn, HeldIs, Registered;
    forall f | f in fb ensures Settled(q + [x], h, fds, f, fb[f]) {
      if fb[f].home.Queued? { QueuesMore(q, x, fb[f].home.task, f); }
    }
  }

  /** A fiber whose wake-up is nowhere gets its wake-up into a task. */
  lemma PushHomeless(q: seq<Task>, h: map<nat, Slice>, fb: map<nat, FiberRecord>, fds: seq<FdRecord>, x: Task, f: nat,
          r: FiberRecord)
    requires FibersInv(q, h, fb, fds) && x.work == FiberWork(f) && (f in fb ==> fb[f].home == Nowhere)
    requires r.home == Queued(x.id) && r.state != Term
    requires (r.state.Running? <==> r.parking) && (f in fb ==> r.state == fb[f].state)
    requires (f !in fb ==> r.state == Ready)
    ensures FibersInv(q + [x], h, fb[f := r], fds)
  {
    hide RunsOn, HeldIs, Registered;
    var q', fb' := q + [x], fb[f := r];
    assert x in q';
    assert QueuesFiber(q', x.id, f);
    forall g | g in fb' ensures Settled(q', h, fds, g, fb'[g]) {
      if g != f && fb[g].home.Queued? { QueuesMore(q, x, fb[g].home.task, g); }
    }
  }

  lemma ClearSlots(fds: seq<FdRecord>, fd: nat, e: Event)
    requires fd < |fds|
    ensures OnlySlot(fds, Clear(fds, fd, e), fd, e, None)
  {}

  /** A registration goes; the fiber that waited, if it was one, has its wake-up in the task pushed. */
  lemma FireFibers(q: seq<Task>, h: map<nat, Slice>, fb: map<nat, FiberRecord>, fds: seq<FdRecord>,
          fds': seq<FdRecord>, fd: nat, e: Event, x: Task)
    requires FibersInv(q, h, fb, fds) && Registered(fds, fd, e) == Some(x.work) && OnlySlot(fds, fds', fd, e, None)
    ensures x.work.FiberWork? ==> x.work.fiber in fb && fb[x.work.fiber].home.Waiting?
    ensures x.work.CbWork? ==> FibersInv(q + [x], h, fb, fds')
    ensures x.work.FiberWork? ==>
      FibersInv(q + [x], h, fb[x.work.fiber := fb[x.work.fiber].(home := Queued(x.id))], fds')
  {
    hide RunsOn, HeldIs, Registered;
    var q' := q + [x];
    assert x in q';
    if x.work.FiberWork? {
      var f := x.work.fiber;
      var fb' := fb[f := fb[f].(home := Queued(x.id))];
      assert QueuesFiber(q', x.id, f);
      forall g | g in fb' ensures Settled(q', h, fds', g, fb'[g]) {
        if g != f && fb[g].home.Queued? { QueuesMore(q, x, fb[g].home.task, g); }
      }
    } else {
      forall g | g in fb ensures Settled(q', h, fds', g, fb[g]) {
        if fb[g].home.Queued? { QueuesMore(q, x, fb[g].home.task, g); }
      }
    }
  }

  lemma SameFibers(q: seq<Task>, h: map<nat, Slice>, fb: map<nat, FiberRecord>, fds: seq<FdRecord>, fds': seq<FdRecord>)
    requires FibersInv(q, h, fb, fds) && SameSlots(fds, fds')
    ensures FibersInv(q, h, fb, fds')
  {
    hide RunsOn, HeldIs, Registered, QueuesFiber;
  }

  lemma WatchFibers(q: seq<Task>, h: map<nat, Slice>, fb: map<nat, FiberRecord>, fds: seq<FdRecord>,
          fds': seq<FdRecord>, fd: nat, e: Event, cb: nat)
    requires FibersInv(q, h, fb, fds) && Registered(fds, fd, e) == None && OnlySlot(fds, fds', fd, e, Some(CbWork(cb)))
    ensures FibersInv(q, h, fb, fds')
  {
    hide RunsOn, HeldIs, Registered, QueuesFiber;
  }

  lemma UnwatchFibers(q: seq<Task>, h: map<nat, Slice>, fb: map<nat, FiberRecord>, fds: seq<FdRecord>,
          fds': seq<FdRecord>, fd: nat, e: Event)
    requires FibersInv(q, h, fb, fds) && OnlySlot(fds, fds', fd, e, None)
    requires Registered(fds, fd, e).Some? && Registered(fds, fd, e).value.CbWork?
    ensures FibersInv(q, h, fb, fds')
  {
    hide RunsOn, HeldIs, Registered, QueuesFiber;
  }

  lemma DropFibers(q: seq<Task>, h: map<nat, Slice>, fb: map<nat, FiberRecord>, fds: seq<FdRecord>,
          fds': seq<FdRecord>, fd: nat, e: Event, f: nat)
    requires FibersInv(q, h, fb, fds) && Registered(fds, fd, e) == Some(FiberWork(f))
    requires OnlySlot(fds, fds', fd, e, None)
    ensures f in fb && fb[f].home.Waiting?
    ensures FibersInv(q, h, fb[f := fb[f].(home := Dropped, drops := fb[f].drops + 1)], fds')
  {
    hide RunsOn, HeldIs, Registered, QueuesFiber;
  }

  lemma ParkFibers(q: seq<Task>, h: map<nat, Slice>, fb: map<nat, FiberRecord>, fds: seq<FdRecord>,
          fds': seq<FdRecord>, fd: nat, e: Event, t: nat, f: nat)
    requires FibersInv(q, h, fb, fds) && RunsOn(h, t, f) && f in fb && !fb[f].parking
    requires Registered(fds, fd, e) == None && OnlySlot(fds, fds', fd, e, Some(FiberWork(f)))
    ensures FibersInv(q, h, fb[f := fb[f].(parking := true, home := Waiting(fd, e), parks := fb[f].parks + 1)], fds')
  {
    assert fb[f].state == Running(t);
    hide RunsOn, HeldIs, Registered, QueuesFiber;
  }

  lemma QueuesLess(q: seq<Task>, i: nat, id: nat, f: nat)
    requires QueuesFiber(q, id, f) && i < |q| && q[i].id != id
    requires forall a, b :: 0 <= a < b < |q| ==> q[a].id != q[b].id
    ensures QueuesFiber(q[..i] + q[i + 1..], id, f)
  {
    Erased(q, i);
    var y :| y in q && y.id == id && y.work == FiberWork(f);
    assert y in q[..i] + q[i + 1..];
  }

  /** Thread t takes the task at i into its hand. */
  lemma PickFibers(q: seq<Task>, h: map<nat, Slice>, fb: map<nat, FiberRecord>, fds: seq<FdRecord>, t: nat, i: nat)
    requires FibersInv(q, h, fb, fds) && t !in h && i < |q|
    requires forall a, b :: 0 <= a < b < |q| ==> q[a].id != q[b].id
    requires q[i].work.FiberWork? && q[i].work.fiber in fb ==> !fb[q[i].work.fiber].state.Running?
    ensures q[i].work.FiberWork? ==> q[i].work.fiber in fb && fb[q[i].work.fiber].state == Ready
    ensures var x, q', h' := q[i], q[..i] + q[i + 1..], h[t := Slice(q[i], Picked)];
      FibersInv(q', h', if x.work.FiberWork? then fb[x.work.fiber := fb[x.work.fiber].(home := Held(t))] else fb, fds)
  {
    Erased(q, i);
    var x, q', h' := q[i], q[..i] + q[i + 1..], h[t := Slice(q[i], Picked)];
    assert x in q;
    var fb' := if x.work.FiberWork? then fb[x.work.fiber := fb[x.work.fiber].(home := Held(t))] else fb;
    forall g, t2 | HeldIs(h', t2, g)
      ensures g in fb' && fb'[g].home == Held(t2)
    {
      assert t2 != t ==> HeldIs(h, t2, g);
    }
    forall g, t2 | RunsOn(h', t2, g) ensures g in fb' && fb'[g].state == Running(t2) { assert RunsOn(h, t2, g); }
    forall g | g in fb' ensures Settled(q', h', fds, g, fb'[g]) {
      hide Registered;
      assert Settled(q, h, fds, g, fb[g]);
      if fb'[g].home.Queued? {
        assert g in fb && fb[g] == fb'[g];
        if fb[g].home.task == x.id { SameTask(q, i, g); }
        hide QueuesFiber;
        QueuesLess(q, i, fb[g].home.task, g);
      }
    }
  }

  /** A task number is the number of one task. */
  lemma SameTask(q: seq<Task>, i: nat, f: nat)
    requires i < |q| && QueuesFiber(q, q[i].id, f)
    requires forall a, b :: 0 <= a < b < |q| ==> q[a].id != q[b].id
    ensures q[i].work == FiberWork(f)
  {}

  lemma ResumeFibers(q: seq<Task>, h: map<nat, Slice>, fb: map<nat, FiberRecord>, fds: seq<FdRecord>, t: nat, f: nat)
    requires FibersInv(q, h, fb, fds) && t in h && h[t].phase.Picked?
    requires if h[t].task.work.FiberWork? then f == h[t].task.work.fiber else f !in fb
    ensures var c := if f in fb then fb[f] else FiberRecord(Ready, false, Nowhere, 0, 0, 0);
      FibersInv(q, h[t := h[t].(phase := Executing(f))], fb[f := c.(state := Running(t), home := Nowhere)], fds)
  {
    var c := if f in fb then fb[f] else FiberRecord(Ready, false, Nowhere, 0, 0, 0);
    var h', fb' := h[t := h[t].(phase := Executing(f))], fb[f := c.(state := Running(t), home := Nowhere)];
    assert h[t].task.work.FiberWork? ==> HeldIs(h, t, f);
    forall g, t2 | HeldIs(h', t2, g) ensures g in fb' && fb'[g].home == Held(t2) { assert HeldIs(h, t2, g); }
    forall g, t2 | RunsOn(h', t2, g)
      ensures g in fb' && fb'[g].state == Running(t2)
    {
      assert t2 != t ==> RunsOn(h, t2, g);
    }
    hide Registered, QueuesFiber;
    forall g | g in fb' ensures Settled(q, h', fds, g, fb'[g]) {
      if g != f { assert Settled(q, h, fds, g, fb[g]); }
    }
  }

  lemma LeaveFibers(q: seq<Task>, h: map<nat, Slice>, fb: map<nat, FiberRecord>, fds: seq<FdRecord>, t: nat, f: nat,
          st: FiberState)
    requires FibersInv(q, h, fb, fds) && RunsOn(h, t, f) && f in fb && (st == Ready || (st == Term && !fb[f].parking))
    ensures FibersInv(q, h[t := h[t].(phase := Returned)], fb[f := fb[f].(state := st, parking := false)], fds)
  {
    var h', fb' := h[t := h[t].(phase := Returned)], fb[f := fb[f].(state := st, parking := false)];
    assert fb[f].state == Running(t);
    forall g, t2 | HeldIs(h', t2, g) ensures g in fb' && fb'[g].home == Held(t2) { assert HeldIs(h, t2, g); }
    forall g, t2 | RunsOn(h', t2, g) ensures g in fb' && fb'[g].state == Running(t2) { assert RunsOn(h, t2, g); }
    hide Registered, QueuesFiber;
    forall g | g in fb' ensures Settled(q, h', fds, g, fb'[g]) {
      assert Settled(q, h, fds, g, fb[g]);
    }
  }

  lemma ReleaseFibers(q: seq<Task>, h: map<nat, Slice>, fb: map<nat, FiberRecord>, fds: seq<FdRecord>, t: nat)
    requires FibersInv(q, h, fb, fds) && t in h && h[t].phase.Returned?
    ensures FibersInv(q, h - {t}, fb, fds)
  {
    var h' := h - {t};
    forall g, t2 | HeldIs(h', t2, g) ensures g in fb && fb[g].home == Held(t2) { assert HeldIs(h, t2, g); }
    forall g, t2 | RunsOn(h', t2, g) ensures g in fb && fb[g].state == Running(t2) { assert RunsOn(h, t2, g); }
    hide Registered, QueuesFiber;
    forall g | g in fb ensures Settled(q, h', fds, g, fb[g]) { assert Settled(q, h, fds, g, fb[g]); }
  }

  // ---------- the log ----------

  lemma LogMore(log: seq<Work>, w: Work, f: nat)
    ensures TimesQueued(log + [w], f) == TimesQueued(log, f) + (if w == FiberWork(f) then 1 else 0)
  {}

  /** A task is logged whose fiber, if it has one, gets the record c. */
  lemma LogKeeps(log: seq<Work>, fb: map<nat, FiberRecord>, w: Work, f: nat, c: FiberRecord)
    requires LogInv(log, fb)
    requires w == FiberWork(f) && !c.home.Waiting?
    requires if f in fb then c.drops == fb[f].drops
        && c.parks + c.posts == fb[f].parks + fb[f].posts + (if fb[f].home.Waiting? then 0 else 1)
             else c.drops == 0 && c.parks + c.posts == 1
    ensures LogInv(log + [w], fb[f := c])
  {
    forall g: nat
      ensures TimesQueued(log + [w], g) == TimesQueued(log, g) + (if w == FiberWork(g) then 1 else 0)
    {
      LogMore(log, w, g);
    }
    hide TimesQueued;
  }

  lemma LogCallback(log: seq<Work>, fb: map<nat, FiberRecord>, cb: nat)
    requires LogInv(log, fb)
    ensures LogInv(log + [CbWork(cb)], fb)
  {
    forall g: nat ensures TimesQueued(log + [CbWork(cb)], g) == TimesQueued(log, g) { LogMore(log, CbWork(cb), g); }
    hide TimesQueued;
  }

  /** A record that changes without a task being logged. */
  lemma LogSame(log: seq<Work>, fb: map<nat, FiberRecord>, f: nat, c: FiberRecord)
    requires LogInv(log, fb)
    requires if f in fb then c.parks + c.posts - c.drops - (if c.home.Waiting? then 1 else 0)
                             == fb[f].parks + fb[f].posts - fb[f].drops - (if fb[f].home.Waiting? then 1 else 0)
             else c.parks + c.posts + c.drops == 0 && !c.home.Waiting?
    ensures LogInv(log, fb[f := c])
  {
    hide TimesQueued;
  }

  // ---------- whole steps ----------

  ghost predicate Core(s: State) {
    TasksInv(s.queue, s.hands, s.active, s.places) && FibersInv(s.queue, s.hands, s.fibers, s.io.fds)
        && LogInv(s.log, s.fibers)
  }

  lemma InvShapes(s: State)
    requires Inv(s)
    ensures Shaped(s)
  {
    hide LogInv, FibersInv, PendingSum, Mirrors;
  }

  lemma FireKeeps(s: State, fd: nat, e: Event)
    requires Core(s) && fd < |s.io.fds|
    ensures var s' := Fire(s, fd, e);
      Core(s') && s'.io == s.io.(fds := Clear(s.io.fds, fd, e))
  {
    hide LogInv, TasksInv, FibersInv, Clear, OnlySlot, SameSlots;
    var fds' := Clear(s.io.fds, fd, e);
    ClearSlots(s.io.fds, fd, e);
    var w := Registered(s.io.fds, fd, e);
    if w.Some? {
      var x := Task(|s.places|, w.value, None);
      PushTasks(s.queue, s.hands, s.active, s.places, x);
      FireFibers(s.queue, s.hands, s.fibers, s.io.fds, fds', fd, e, x);
      match x.work
      case FiberWork(f) => LogKeeps(s.log, s.fibers, x.work, f, s.fibers[f].(home := Queued(x.id)));
      case CbWork(cb) => LogCallback(s.log, s.fibers, cb);
    } else {
      NothingCleared(s.io.fds, fds', fd, e);
      SameFibers(s.queue, s.hands, s.fibers, s.io.fds, fds');
    }
  }

  lemma NothingCleared(fds: seq<FdRecord>, fds': seq<FdRecord>, fd: nat, e: Event)
    requires OnlySlot(fds, fds', fd, e, None) && Registered(fds, fd, e) == None
    ensures SameSlots(fds, fds')
  {
    hide Registered;
  }

  lemma FireAllKeeps(s: State, fd: nat, m: Mask)
    requires Core(s) && fd < |s.io.fds|
    ensures Core(FireAll(s, fd, m)) && FireAll(s, fd, m).io == s.io.(fds := ClearAll(s.io.fds, fd, m))
  {
    hide Core, Fire, Clear;
    if m.read { FireKeeps(s, fd, Read); }
    var a := if m.read then Fire(s, fd, Read) else s;
    if m.write { FireKeeps(a, fd, Write); }
  }

  /** Cancelling, and handling a report. */
  lemma TakenKeeps(s: State, fd: nat, m: Mask, r: Reply)
    requires Inv(s) && Valid(r.io)
    requires r.ok ==> fd < |s.io.fds| && WithoutSlots(s.io.fds, r.io.fds, fd, m)
    requires !r.ok ==> r.io == s.io
    ensures Inv(Taken(s, fd, m, r))
  {
    if r.ok {
      FireAllKeeps(s, fd, m);
      ClearIs(s.io.fds, fd, m);
      var a := FireAll(s, fd, m);
      assert SameSlots(a.io.fds, r.io.fds) by { hide FireAll, Core, Valid, Inv; }
      hide LogInv, FireAll, ClearAll, TasksInv, Valid;
      SameFibers(a.queue, a.hands, a.fibers, a.io.fds, r.io.fds);
      hide FibersInv;
    }
  }

  lemma PushKeeps(s: State, cb: nat, on: Option<nat>)
    requires Inv(s)
    ensures Inv(Push(s, CbWork(cb), on))
  {
    hide LogInv, TasksInv, FibersInv, Valid;
    PushTasks(s.queue, s.hands, s.active, s.places, Task(|s.places|, CbWork(cb), on));
    PushCallback(s.queue, s.hands, s.fibers, s.io.fds, Task(|s.places|, CbWork(cb), on));
    LogCallback(s.log, s.fibers, cb);
  }

  lemma PushFiberKeeps(s: State, f: nat, on: Option<nat>, self: bool)
    requires Inv(s)
    requires f in s.fibers ==>
      && s.fibers[f].home == Nowhere && !s.fibers[f].parking
      && (if self then s.fibers[f].state.Running? else s.fibers[f].state == Ready)
    requires f !in s.fibers ==> !self
    ensures Inv(PushFiber(s, f, on, self))
  {
    var r := if f in s.fibers then s.fibers[f] else FiberRecord(Ready, false, Nowhere, 0, 0, 0);
    hide LogInv, TasksInv, FibersInv, Valid;
    var x := Task(|s.places|, FiberWork(f), on);
    PushTasks(s.queue, s.hands, s.active, s.places, x);
    LogKeeps(s.log, s.fibers, x.work, f, Homed(s, r.(parking := r.parking || self, posts := r.posts + 1)));
    PushHomeless(s.queue, s.hands, s.fibers, s.io.fds, x, f,
        Homed(s, r.(parking := r.parking || self, posts := r.posts + 1)));
  }

  lemma ActingFiber(s: State, t: nat)
    requires Inv(s) && Executes(s, t)
    ensures Current(s, t) in s.fibers && s.fibers[Current(s, t)].state == Running(t)
    ensures RunsOn(s.hands, t, Current(s, t))
    ensures !s.fibers[Current(s, t)].parking ==> s.fibers[Current(s, t)].home == Nowhere
  {
    assert RunsOn(s.hands, t, Current(s, t));
    hide TasksInv, Valid, QueuesFiber, HeldIs, Registered;
  }

  /** schedule, by the running fiber or from outside. */
  lemma ScheduleKeeps(s: State, step: Step)
    requires Inv(s) && Shaped(s) && Enabled(s, step)
    requires step.Post? || step.PostFiber? || step.Schedule? || step.ScheduleFiber?
    ensures Inv(Apply(s, step))
  {
    match step
    case Post(cb, on) => PushKeeps(s, cb, on);
    case PostFiber(f, on) => PushFiberKeeps(s, f, on, false);
    case Schedule(t, cb, on) => PushKeeps(s, cb, on);
    case ScheduleFiber(t, f, on) =>
      ActingFiber(s, t);
      if f in s.fibers { hide TasksInv, Valid; assert Settled(s.queue, s.hands, s.io.fds, f, s.fibers[f]); }
      hide Inv;
      PushFiberKeeps(s, f, on, f == Current(s, t));
  }

  /** The fibers after thread t has taken task x. */
  function HeldFibers(fibers: map<nat, FiberRecord>, x: Task, t: nat): map<nat, FiberRecord> {
    if x.work.FiberWork? && x.work.fiber in fibers then
      fibers[x.work.fiber := fibers[x.work.fiber].(home := Held(t))]
    else fibers
  }

  lemma PickIs(s: State, t: nat, i: nat)
    requires i < |s.queue| && s.queue[i].id < |s.places|
    ensures var x := s.queue[i];
      PickAt(s, t, i) == s.(queue := s.queue[..i] + s.queue[i + 1..], hands := s.hands[t := Slice(x, Picked)],
                            active := s.active + 1, places := s.places[x.id := HeldBy(t)],
                            fibers := HeldFibers(s.fibers, x, t))
  {}

  lemma PickKeepsFibers(s: State, t: nat, i: nat)
    requires FibersInv(s.queue, s.hands, s.fibers, s.io.fds) && LogInv(s.log, s.fibers) && t !in s.hands
    requires i < |s.queue|
    requires forall a, b :: 0 <= a < b < |s.queue| ==> s.queue[a].id != s.queue[b].id
    requires Eligible(s, t, s.queue[i])
    ensures var x := s.queue[i]; var fb := HeldFibers(s.fibers, x, t);
      FibersInv(s.queue[..i] + s.queue[i + 1..], s.hands[t := Slice(x, Picked)], fb, s.io.fds) && LogInv(s.log, fb)
  {
    var x := s.queue[i];
    assert x in s.queue;
    hide LogInv, FibersInv;
    PickFibers(s.queue, s.hands, s.fibers, s.io.fds, t, i);
    if x.work.FiberWork? {
      QueuedHome(s, x);
      LogSame(s.log, s.fibers, x.work.fiber, s.fibers[x.work.fiber].(home := Held(t)));
    }
  }

  lemma PickKeeps(s: State, t: nat)
    requires Inv(s) && Shaped(s) && Enabled(s, Pick(t))
    ensures Inv(Apply(s, Pick(t)))
  {
    var i := FirstEligible(s, t, 0);
    DistinctIds(s);
    hide LogInv, TasksInv, FibersInv, Valid, Eligible, FirstEligible, PickAt, HeldFibers;
    PickTasks(s.queue, s.hands, s.active, s.places, t, i);
    PickKeepsFibers(s, t, i);
    PickIs(s, t, i);
  }

  lemma QueuedHome(s: State, x: Task)
    requires FibersInv(s.queue, s.hands, s.fibers, s.io.fds) && x in s.queue && x.work.FiberWork?
    ensures x.work.fiber in s.fibers && s.fibers[x.work.fiber].home == Queued(x.id)
  {}

  lemma DistinctIds(s: State)
    requires TasksInv(s.queue, s.hands, s.active, s.places)
    ensures forall a, b :: 0 <= a < b < |s.queue| ==> s.queue[a].id != s.queue[b].id
  {}

  lemma ResumeKeeps(s: State, t: nat, f: nat)
    requires Inv(s) && t in s.hands && s.hands[t].phase.Picked?
    requires if s.hands[t].task.work.FiberWork? then f == s.hands[t].task.work.fiber else f !in s.fibers
    ensures Inv(ResumeOn(s, t, f))
  {
    PhaseTasks(s.queue, s.hands, s.active, s.places, t, Executing(f));
    ResumeFibers(s.queue, s.hands, s.fibers, s.io.fds, t, f);
    if f in s.fibers {
      assert HeldIs(s.hands, t, f);
      LogSame(s.log, s.fibers, f, s.fibers[f].(state := Running(t), home := Nowhere));
    } else {
      LogSame(s.log, s.fibers, f, FiberRecord(Running(t), false, Nowhere, 0, 0, 0));
    }
    hide LogInv, TasksInv, FibersInv, Valid;
  }

  lemma LeaveKeeps(s: State, t: nat, st: FiberState)
    requires Inv(s) && Executes(s, t) && Current(s, t) in s.fibers
    requires st == Ready || (st == Term && !s.fibers[Current(s, t)].parking)
    ensures Inv(Leave(s, t, st))
  {
    ActingFiber(s, t);
    PhaseTasks(s.queue, s.hands, s.active, s.places, t, Returned);
    LeaveFibers(s.queue, s.hands, s.fibers, s.io.fds, t, Current(s, t), st);
    LogSame(s.log, s.fibers, Current(s, t), s.fibers[Current(s, t)].(state := st, parking := false));
    hide LogInv, TasksInv, FibersInv, Valid;
  }

  lemma ReleaseKeeps(s: State, t: nat)
    requires Inv(s) && Shaped(s) && t in s.hands && s.hands[t].phase.Returned?
    ensures Inv(Released(s, t))
  {
    ReleaseTasks(s.queue, s.hands, s.active, s.places, t);
    ReleaseFibers(s.queue, s.hands, s.fibers, s.io.fds, t);
    hide LogInv, TasksInv, FibersInv, Valid;
  }

  lemma Unregistered(io: Io, fd: nat, e: Event)
    requires Valid(io) && (fd < |io.fds| ==> !Has(io.fds[fd].events, e))
    ensures Registered(io.fds, fd, e) == None
  {
    hide PendingSum, Mirrors;
  }

  lemma ParkKeeps(s: State, t: nat, fd: nat, e: Event, refused: bool)
    requires Inv(s) && Shaped(s) && Enabled(s, Park(t, fd, e, refused))
    ensures Inv(ParkWith(s, t, fd, e, AddEvent(s.io, fd, e, FiberWork(Current(s, t)), refused)))
  {
    hide LogInv, TasksInv, FibersInv, Valid, AddEvent, SameSlots, OnlySlot;
    ActingFiber(s, t);
    Unregistered(s.io, fd, e);
    var r := AddEvent(s.io, fd, e, FiberWork(Current(s, t)), refused);
    AddEventCorrect(s.io, fd, e, FiberWork(Current(s, t)), refused);
    if r.ok {
      ParkFibers(s.queue, s.hands, s.fibers, s.io.fds, r.io.fds, fd, e, t, Current(s, t));
      var c := s.fibers[Current(s, t)];
      LogSame(s.log, s.fibers, Current(s, t), c.(parking := true, home := Waiting(fd, e), parks := c.parks + 1));
    } else {
      SameFibers(s.queue, s.hands, s.fibers, s.io.fds, r.io.fds);
    }
  }

  lemma WatchKeeps(s: State, fd: nat, e: Event, cb: nat, refused: bool)
    requires Inv(s) && Shaped(s) && (fd < |s.io.fds| ==> !Has(s.io.fds[fd].events, e))
    ensures Inv(s.(io := AddEvent(s.io, fd, e, CbWork(cb), refused).io))
  {
    hide LogInv, TasksInv, FibersInv, Valid, AddEvent, SameSlots, OnlySlot;
    Unregistered(s.io, fd, e);
    var r := AddEvent(s.io, fd, e, CbWork(cb), refused);
    AddEventCorrect(s.io, fd, e, CbWork(cb), refused);
    if r.ok {
      WatchFibers(s.queue, s.hands, s.fibers, s.io.fds, r.io.fds, fd, e, cb);
    } else {
      SameFibers(s.queue, s.hands, s.fibers, s.io.fds, r.io.fds);
    }
  }

  lemma DeleteKeeps(s: State, fd: nat, e: Event, refused: bool)
    requires Inv(s)
    ensures Inv(AfterDelete(s, fd, e, DelEvent(s.io, fd, e, refused)))
  {
    hide LogInv, TasksInv, FibersInv, Valid, Remove, OnlySlot, Registered;
    var r := DelEvent(s.io, fd, e, refused);
    RemoveCorrect(s.io, fd, e, false, refused);
    var w := Registered(s.io.fds, fd, e);
    if r.ok {
      match w.value
      case FiberWork(f) =>
        DropFibers(s.queue, s.hands, s.fibers, s.io.fds, r.io.fds, fd, e, f);
        LogSame(s.log, s.fibers, f, s.fibers[f].(home := Dropped, drops := s.fibers[f].drops + 1));
      case CbWork(_) => UnwatchFibers(s.queue, s.hands, s.fibers, s.io.fds, r.io.fds, fd, e);
    }
  }

  /** Whatever triggers events. */
  lemma TriggerKeeps(s: State, step: Step)
    requires Inv(s) && Shaped(s) && Enabled(s, step) && (step.Cancel? || step.CancelEvery? || step.Handle?)
    ensures Inv(Apply(s, step))
  {
    hide LogInv, TasksInv, FibersInv, Taken;
    match step
    case Cancel(t, fd, e, refused) =>
      RemoveCorrect(s.io, fd, e, true, refused);
      hide Remove, Registered;
      TakenKeeps(s, fd, Only(e), CancelEvent(s.io, fd, e, refused));
    case CancelEvery(t, fd, refused) =>
      CancelAllCorrect(s.io, fd, refused);
      assert CancelAll(s.io, fd, refused).ok ==> fd < |s.io.fds|;
      hide CancelAll, Registered;
      TakenKeeps(s, fd, Mask(true, true), CancelAll(s.io, fd, refused));
    case Handle(t, fd, reported, broken, refused) =>
      ReportCorrect(s.io, fd, reported, broken, refused);
      hide Report, Registered;
      TakenKeeps(s, fd, RealEvents(s.io.fds[fd].events, reported, broken),
          Report(s.io, fd, reported, broken, refused).value);
  }

  /** Timers, checks and the stopping flag are not part of the invariant. */
  lemma OtherStepKeeps(s: State, step: Step)
    requires Inv(s) && Shaped(s) && Enabled(s, step)
    requires step.Stop? || step.AddTimer? || step.CancelTimer? || step.Collect?
      || step.CheckTimers? || step.CheckPending? || step.CheckTasks?
    ensures Inv(Apply(s, step))
  {
    hide LogInv, TasksInv, FibersInv, Valid, Callbacks;
  }

  lemma InvKept(s: State, step: Step)
    requires Inv(s) && Shaped(s) && Enabled(s, step)
    ensures Inv(Apply(s, step))
  {
    hide LogInv, TasksInv, FibersInv, Valid, Push, PushFiber, FireAll, Taken, PickAt, ResumeOn, Leave, Released;
    hide ParkWith, AfterDelete;
    hide AddEvent, Remove, CancelAll, Report, FirstEligible, Eligible, Registered;
    match step {
      case Post(_, _) => ScheduleKeeps(s, step);
      case PostFiber(_, _) => ScheduleKeeps(s, step);
      case Schedule(_, _, _) => ScheduleKeeps(s, step);
      case ScheduleFiber(_, _, _) => ScheduleKeeps(s, step);
      case Pick(t) => PickKeeps(s, t);
      case Resume(t, f) => ResumeKeeps(s, t, f);
      case Yield(t) => LeaveKeeps(s, t, Ready);
      case Finish(t) => LeaveKeeps(s, t, Term);
      case Release(t) => ReleaseKeeps(s, t);
      case Park(t, fd, e, refused) => ParkKeeps(s, t, fd, e, refused);
      case Watch(t, fd, e, cb, refused) => WatchKeeps(s, fd, e, cb, refused);
      case Delete(t, fd, e, refused) => DeleteKeeps(s, fd, e, refused);
      case Cancel(_, _, _, _) => TriggerKeeps(s, step);
      case CancelEvery(_, _, _) => TriggerKeeps(s, step);
      case Handle(_, _, _, _, _) => TriggerKeeps(s, step);
      case Submit(t) => PushKeeps(s, s.collected[t][0], None);
      case _ => OtherStepKeeps(s, step);
    }
  }

  lemma StepKeepsInv(s: State, step: Step)
    requires Inv(s) && Shaped(s) && Enabled(s, step)
    ensures Inv(Apply(s, step)) && Shaped(Apply(s, step))
  {
    hide Inv, Shaped, Enabled, Apply;
    InvKept(s, step);
    InvShapes(Apply(s, step));
  }
}
