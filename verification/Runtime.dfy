/** The coroutine runtime as atomic steps: scheduling threads, fibers, event registrations, timers and the
    stop check. Every block under a mutex is one step, and so is Fiber::yield. */
module Runtime {
  import opened Wrappers
  import opened EventSpec

  datatype FiberState = Ready | Running(thread: nat) | Term

  /** Where the one wake-up of a fiber lies: nowhere, in a queued task, in an event context, in the hand of
      a thread about to resume it, or lost to a delEvent. */
  datatype Home = Nowhere | Queued(task: nat) | Waiting(fd: nat, event: Event) | Held(hand: nat) | Dropped

  /** A fiber; `parking` from the moment it has arranged its wake-up until it yields. The home and the
      counts of parks, of schedule calls by hand and of dropped registrations are a record for the proofs. */
  datatype FiberRecord = FiberRecord(state: FiberState, parking: bool, home: Home, parks: nat, posts: nat, drops: nat)

  /** ScheduleTask, numbered in the order of schedule calls. */
  datatype Task = Task(id: nat, work: Work, thread: Option<nat>)

  /** What a thread does with the task in its hand: about to resume it, inside it, back from it. */
  datatype Phase = Picked | Executing(fiber: nat) | Returned

  datatype Slice = Slice(task: Task, phase: Phase)

  /** What became of a scheduled task. */
  datatype Place = Enqueued | HeldBy(thread: nat) | Done

  /** How far a thread's call of IOManager::stopping has come; Exited when it returned true. */
  datatype Check = NoTimer | NoPending | Exited

  /** The scheduler, the fibers, the registrations and the timers. `places` and `log` record what became of
      every task ever scheduled, and what it was. */
  datatype State = State(queue: seq<Task>, hands: map<nat, Slice>, active: int, places: seq<Place>, log: seq<Work>,
                         stopping: bool, fibers: map<nat, FiberRecord>, io: Io, timers: map<nat, nat>,
                         collected: map<nat, seq<nat>>, checks: map<nat, Check>)

  /** Nothing scheduled, and the 32 contexts of a new IO manager. */
  function Init(): State {
    State([], map[], 0, [], [], false, map[], Io(seq(32, i => NoEvents), map[], 0), map[], map[], map[])
  }

  datatype Step =
    | Post(cb: nat, on: Option<nat>)                                 // schedule, from outside the scheduler
    | PostFiber(f: nat, on: Option<nat>)
    | Stop
    | Pick(t: nat)
    | Resume(t: nat, f: nat)
    | Schedule(t: nat, cb: nat, on: Option<nat>)                     // by the fiber running on t, up to Finish
    | ScheduleFiber(t: nat, f: nat, on: Option<nat>)
    | AddTimer(t: nat, timer: nat, cb: nat)
    | CancelTimer(t: nat, timer: nat)
    | Park(t: nat, fd: nat, e: Event, refused: bool)
    | Watch(t: nat, fd: nat, e: Event, cb: nat, refused: bool)
    | Delete(t: nat, fd: nat, e: Event, refused: bool)
    | Cancel(t: nat, fd: nat, e: Event, refused: bool)
    | CancelEvery(t: nat, fd: nat, refused: bool)
    | Yield(t: nat)
    | Finish(t: nat)
    | Release(t: nat)
    | Collect(t: nat, fired: seq<nat>, recurring: set<nat>)          // by the idle fiber of t, from here on
    | Submit(t: nat)
    | Handle(t: nat, fd: nat, reported: Mask, broken: bool, refused: bool)
    | CheckTimers(t: nat)
    | CheckPending(t: nat)
    | CheckTasks(t: nat)

  // ---------- parts of steps ----------

  /** scheduleNoLock of a task that is not null. */
  function Push(s: State, w: Work, on: Option<nat>): State {
    s.(queue := s.queue + [Task(|s.places|, w, on)], places := s.places + [Enqueued], log := s.log + [w])
  }

  function SetFiber(s: State, f: nat, r: FiberRecord): State {
    s.(fibers := s.fibers[f := r])
  }

  /** A fiber with its wake-up in the task about to be pushed. */
  function Homed(s: State, r: FiberRecord): FiberRecord { r.(home := Queued(|s.places|)) }

  /** schedule of what an event context held. */
  function Wake(s: State, w: Work): State {
    if w.FiberWork? && w.fiber in s.fibers then
      Push(SetFiber(s, w.fiber, Homed(s, s.fibers[w.fiber])), w, None)
    else Push(s, w, None)
  }

  /** triggerEvent: the registration goes and its work is scheduled. */
  function Fire(s: State, fd: nat, e: Event): State
    requires fd < |s.io.fds|
  {
    var a := s.(io := s.io.(fds := Clear(s.io.fds, fd, e)));
    if Slot(s.io.fds[fd], e).Some? then Wake(a, Slot(s.io.fds[fd], e).value) else a
  }

  function FireAll(s: State, fd: nat, m: Mask): State
    requires fd < |s.io.fds|
  {
    var a := if m.read then Fire(s, fd, Read) else s;
    if m.write then Fire(a, fd, Write) else a
  }

  /** A reply of the registration layer that takes the events of `m`, on the whole state. */
  function Taken(s: State, fd: nat, m: Mask, r: Reply): State
    requires r.ok ==> fd < |s.io.fds|
  {
    if r.ok then FireAll(s, fd, m).(io := r.io) else s.(io := r.io)
  }

  predicate Executes(s: State, t: nat) { t in s.hands && s.hands[t].phase.Executing? }

  function Current(s: State, t: nat): nat
    requires Executes(s, t)
  {
    s.hands[t].phase.fiber
  }

  /** The fiber on t is running user code, and has not yet arranged to be woken. */
  predicate Acts(s: State, t: nat) {
    Executes(s, t) && Current(s, t) in s.fibers && !s.fibers[Current(s, t)].parking
  }

  /** Thread t holds no task and is in none of idle's loops. */
  predicate Idles(s: State, t: nat) {
    t !in s.hands && t !in s.checks && t !in s.collected
  }

  predicate Eligible(s: State, t: nat, x: Task) {
    && (x.thread.Some? ==> x.thread.value == t)
    && !(x.work.FiberWork? && x.work.fiber in s.fibers && s.fibers[x.work.fiber].state.Running?)
  }

  /** Where the walk over the queue in run stops. */
  function FirstEligible(s: State, t: nat, from: nat): (i: nat)
    requires from <= |s.queue|
    ensures from <= i <= |s.queue|
    ensures i < |s.queue| ==> Eligible(s, t, s.queue[i])
    ensures forall j :: from <= j < i ==> !Eligible(s, t, s.queue[j])
    decreases |s.queue| - from
  {
    if from == |s.queue| || Eligible(s, t, s.queue[from]) then from else FirstEligible(s, t, from + 1)
  }

  function Callbacks(timers: map<nat, nat>, fired: seq<nat>): seq<nat>
    requires forall x :: x in fired ==> x in timers
  {
    seq(|fired|, i requires 0 <= i < |fired| => assert fired[i] in fired; timers[fired[i]])
  }

  // ---------- steps ----------

  /** When a step can happen. The demands on user code: an event is added only where none is registered, a
      fiber that arranged its wake-up does nothing but yield, and a fiber is scheduled by hand only if it
      is new, or has no wake-up outstanding and is either ready or the caller itself. The demand on epoll:
      a report does not trip triggerEvent's assertion. */
  predicate Enabled(s: State, step: Step) {
    match step
    case Post(_, _) => true
    case PostFiber(f, _) => f !in s.fibers
    case Stop => true
    case Pick(t) => Idles(s, t) && FirstEligible(s, t, 0) < |s.queue|
    case Resume(t, f) => t in s.hands && s.hands[t].phase.Picked?
      && (if s.hands[t].task.work.FiberWork? then f == s.hands[t].task.work.fiber && f in s.fibers else f !in s.fibers)
    case Schedule(t, _, _) => Acts(s, t)
    case ScheduleFiber(t, f, _) => Acts(s, t)
      && (f in s.fibers ==> s.fibers[f].home.Nowhere? && (s.fibers[f].state.Ready? || f == Current(s, t)))
    case AddTimer(t, timer, _) => Acts(s, t) && timer !in s.timers
    case CancelTimer(t, _) => Acts(s, t)
    case Park(t, fd, e, _) => Acts(s, t) && (fd < |s.io.fds| ==> !Has(s.io.fds[fd].events, e))
    case Watch(t, fd, e, _, _) => Acts(s, t) && (fd < |s.io.fds| ==> !Has(s.io.fds[fd].events, e))
    case Delete(t, _, _, _) => Acts(s, t)
    case Cancel(t, _, _, _) => Acts(s, t)
    case CancelEvery(t, _, _) => Acts(s, t)
    case Yield(t) => Executes(s, t) && Current(s, t) in s.fibers
    case Finish(t) => Acts(s, t)
    case Release(t) => t in s.hands && s.hands[t].phase.Returned?
    case Collect(t, fired, _) => Idles(s, t) && forall x :: x in fired ==> x in s.timers
    case Submit(t) => t in s.collected && s.collected[t] != []
    case Handle(t, fd, reported, broken, refused) => Idles(s, t) && fd < |s.io.fds|
      && Report(s.io, fd, reported, broken, refused).Some?
    case CheckTimers(t) => Idles(s, t)
    case CheckPending(t) => t in s.checks && s.checks[t].NoTimer?
    case CheckTasks(t) => t in s.checks && s.checks[t].NoPending?
  }

  /** scheduling a fiber by hand: a new one, or one whose wake-up is nowhere. */
  function PushFiber(s: State, f: nat, on: Option<nat>, self: bool): State {
    var r := if f in s.fibers then s.fibers[f] else FiberRecord(Ready, false, Nowhere, 0, 0, 0);
    Push(SetFiber(s, f, Homed(s, r.(parking := r.parking || self, posts := r.posts + 1))), FiberWork(f), on)
  }

  function SetPhase(s: State, t: nat, p: Phase): State
    requires t in s.hands
  {
    s.(hands := s.hands[t := s.hands[t].(phase := p)])
  }

  function SetCheck(s: State, t: nat, passed: bool, c: Check): State {
    s.(checks := if passed then s.checks[t := c] else s.checks - {t})
  }

  function ParkWith(s: State, t: nat, fd: nat, e: Event, r: Reply): State
    requires Executes(s, t) && Current(s, t) in s.fibers
  {
    var f := Current(s, t);
    var c := s.fibers[f];
    if r.ok then SetFiber(s, f, c.(parking := true, home := Waiting(fd, e), parks := c.parks + 1)).(io := r.io)
    else s.(io := r.io)
  }

  /** delEvent of a waiting fiber loses its wake-up. */
  function AfterDelete(s: State, fd: nat, e: Event, r: Reply): State {
    var w := Registered(s.io.fds, fd, e);
    if r.ok && w.Some? && w.value.FiberWork? && w.value.fiber in s.fibers then
      var c := s.fibers[w.value.fiber];
      SetFiber(s, w.value.fiber, c.(home := Dropped, drops := c.drops + 1)).(io := r.io)
    else s.(io := r.io)
  }

  function PickAt(s: State, t: nat, i: nat): State
    requires i < |s.queue| && s.queue[i].id < |s.places|
  {
    var x := s.queue[i];
    var a := s.(queue := s.queue[..i] + s.queue[i + 1..], hands := s.hands[t := Slice(x, Picked)],
        active := s.active + 1,
                places := s.places[x.id := HeldBy(t)]);
    if x.work.FiberWork? && x.work.fiber in s.fibers then
      SetFiber(a, x.work.fiber, s.fibers[x.work.fiber].(home := Held(t)))
    else a
  }

  /** Fiber::resume of the picked fiber, or of a new one for a callback. */
  function ResumeOn(s: State, t: nat, f: nat): State
    requires t in s.hands
  {
    var c := if f in s.fibers then s.fibers[f] else FiberRecord(Ready, false, Nowhere, 0, 0, 0);
    SetPhase(SetFiber(s, f, c.(state := Running(t), home := Nowhere)), t, Executing(f))
  }

  function Leave(s: State, t: nat, st: FiberState): State
    requires Executes(s, t) && Current(s, t) in s.fibers
  {
    var f := Current(s, t);
    SetPhase(SetFiber(s, f, s.fibers[f].(state := st, parking := false)), t, Returned)
  }

  function Released(s: State, t: nat): State
    requires t in s.hands && s.hands[t].task.id < |s.places|
  {
    s.(hands := s.hands - {t}, active := s.active - 1, places := s.places[s.hands[t].task.id := Done])
  }

  function CollectedFrom(s: State, t: nat, fired: seq<nat>, recurring: set<nat>): State
    requires forall x :: x in fired ==> x in s.timers
  {
    var left := s.timers - ((set x | x in fired) - recurring);
    s.(timers := left, collected := if fired == [] then s.collected else s.collected[t := Callbacks(s.timers, fired)])
  }

  function SubmitOne(s: State, t: nat): State
    requires t in s.collected && s.collected[t] != []
  {
    var cbs := s.collected[t];
    Push(s, CbWork(cbs[0]), None).(collected := if |cbs| == 1 then s.collected - {t} else s.collected[t := cbs[1..]])
  }

  /** The table of contexts has its initial size at least, and task numbers are in range. */
  predicate Shaped(s: State) {
    && |s.io.fds| >= 32
    && (forall x :: x in s.queue ==> x.id < |s.places|)
    && (forall t :: t in s.hands ==> s.hands[t].task.id < |s.places|)
  }

  function Apply(s: State, step: Step): State
    requires Shaped(s) && Enabled(s, step)
  {
    match step
    case Post(cb, on) => Push(s, CbWork(cb), on)
    case PostFiber(f, on) => PushFiber(s, f, on, false)
    case Stop => s.(stopping := true)
    case Pick(t) => PickAt(s, t, FirstEligible(s, t, 0))
    case Resume(t, f) => ResumeOn(s, t, f)
    case Schedule(t, cb, on) => Push(s, CbWork(cb), on)
    case ScheduleFiber(t, f, on) => PushFiber(s, f, on, f == Current(s, t))
    case AddTimer(t, timer, cb) => s.(timers := s.timers[timer := cb])
    case CancelTimer(t, timer) => s.(timers := s.timers - {timer})
    case Park(t, fd, e, refused) => ParkWith(s, t, fd, e, AddEvent(s.io, fd, e, FiberWork(Current(s, t)), refused))
    case Watch(t, fd, e, cb, refused) => s.(io := AddEvent(s.io, fd, e, CbWork(cb), refused).io)
    case Delete(t, fd, e, refused) => AfterDelete(s, fd, e, DelEvent(s.io, fd, e, refused))
    case Cancel(t, fd, e, refused) => Taken(s, fd, Only(e), CancelEvent(s.io, fd, e, refused))
    case CancelEvery(t, fd, refused) => Taken(s, fd, Mask(true, true), CancelAll(s.io, fd, refused))
    case Yield(t) => Leave(s, t, Ready)
    case Finish(t) => Leave(s, t, Term)
    case Release(t) => Released(s, t)
    case Collect(t, fired, recurring) => CollectedFrom(s, t, fired, recurring)
    case Submit(t) => SubmitOne(s, t)
    case Handle(t, fd, reported, broken, refused) =>
      Taken(s, fd, RealEvents(s.io.fds[fd].events, reported, broken), Report(s.io, fd, reported, broken, refused).value)
    case CheckTimers(t) => SetCheck(s, t, s.timers == map[], NoTimer)
    case CheckPending(t) => SetCheck(s, t, s.io.pending == 0, NoPending)
    case CheckTasks(t) => SetCheck(s, t, s.stopping && s.queue == [] && s.active == 0, Exited)
  }

  // ---------- the invariant ----------

  ghost predicate InQueue(queue: seq<Task>, id: nat) {
    exists x :: x in queue && x.id == id
  }

  ghost predicate InHand(hands: map<nat, Slice>, id: nat) {
    exists t :: t in hands && hands[t].task.id == id
  }

  /** Every task is where its place says, and the active count is the number of tasks in hand. */
  ghost predicate TasksInv(queue: seq<Task>, hands: map<nat, Slice>, active: int, places: seq<Place>) {
    && (forall x :: x in queue ==> x.id < |places| && places[x.id] == Enqueued)
    && (forall i, j :: 0 <= i < j < |queue| ==> queue[i].id != queue[j].id)
    && (forall t :: t in hands ==> hands[t].task.id < |places| && places[hands[t].task.id] == HeldBy(t))
    && (forall id: nat :: id < |places| && places[id] == Enqueued ==> InQueue(queue, id))
    && (forall id: nat :: id < |places| && places[id].HeldBy? ==>
          places[id].thread in hands && hands[places[id].thread].task.id == id)
    && active == |hands|
  }

  ghost predicate QueuesFiber(queue: seq<Task>, id: nat, f: nat) {
    exists x :: x in queue && x.id == id && x.work == FiberWork(f)
  }

  predicate HeldIs(hands: map<nat, Slice>, t: nat, f: nat) {
    t in hands && hands[t].phase.Picked? && hands[t].task.work == FiberWork(f)
  }

  predicate RunsOn(hands: map<nat, Slice>, t: nat, f: nat) {
    t in hands && hands[t].phase == Executing(f)
  }

  /** Wherever a fiber's wake-up is found, the fiber's home says so. */
  ghost predicate Homes(queue: seq<Task>, hands: map<nat, Slice>, fibers: map<nat, FiberRecord>, fds: seq<FdRecord>) {
    && (forall x :: x in queue && x.work.FiberWork? ==>
          x.work.fiber in fibers && fibers[x.work.fiber].home == Queued(x.id))
    && (forall t, f :: HeldIs(hands, t, f) ==> f in fibers && fibers[f].home == Held(t))
    && (forall t, f :: RunsOn(hands, t, f) ==> f in fibers && fibers[f].state == Running(t))
    && (forall fd: nat, e: Event, f: nat :: Registered(fds, fd, e) == Some(FiberWork(f)) ==>
          f in fibers && fibers[f].home == Waiting(fd, e))
  }

  /** A fiber's own record is right. */
  ghost predicate Settled(queue: seq<Task>, hands: map<nat, Slice>, fds: seq<FdRecord>, f: nat, c: FiberRecord) {
    && (c.state.Running? ==> RunsOn(hands, c.state.thread, f))
    && (c.parking ==> c.state.Running?)
    && (c.state.Term? || (c.state.Running? && !c.parking) ==> c.home == Nowhere)
    && (match c.home
        case Nowhere => true
        case Queued(id) => QueuesFiber(queue, id, f)
        case Waiting(fd, e) => Registered(fds, fd, e) == Some(FiberWork(f))
        case Held(t) => HeldIs(hands, t, f) && c.state == Ready
        case Dropped => true)
  }

  ghost predicate FibersInv(queue: seq<Task>, hands: map<nat, Slice>, fibers: map<nat, FiberRecord>,
          fds: seq<FdRecord>) {
    Homes(queue, hands, fibers, fds) && forall f :: f in fibers ==> Settled(queue, hands, fds, f, fibers[f])
  }

  /** How often a fiber has been put on the queue. */
  ghost function TimesQueued(log: seq<Work>, f: nat): nat {
    multiset(log)[FiberWork(f)]
  }

  /** A fiber was put on the queue once for every schedule call and for every park, but for a park that
      still waits and for those that a delEvent dropped. */
  ghost predicate LogInv(log: seq<Work>, fibers: map<nat, FiberRecord>) {
    && (forall f :: f in fibers ==>
          TimesQueued(log, f) + fibers[f].drops + (if fibers[f].home.Waiting? then 1 else 0)
              == fibers[f].parks + fibers[f].posts)
    && (forall f: nat :: f !in fibers ==> TimesQueued(log, f) == 0)
  }

  ghost predicate Inv(s: State) {
    && LogInv(s.log, s.fibers)
    && TasksInv(s.queue, s.hands, s.active, s.places)
    && FibersInv(s.queue, s.hands, s.fibers, s.io.fds)
    && Valid(s.io)
  }
}
