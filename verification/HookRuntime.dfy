/** do_io on the runtime: its steps one by one, with any steps of everybody else in between, and with the
    callbacks of its timers, which share the field `cancelled` with all its turns. */
module HookRuntime {
  import opened Wrappers
  import opened EventSpec
  import opened Runtime
  import opened RuntimeInvariant
  import opened RuntimeProperties
  import opened Hook

  /** A call of do_io by fiber f on a blocking socket. */
  datatype Call = Call(f: nat, fd: nat, e: Event, timeout: bool)

  /** Where do_io stands. `added` says whether addEvent succeeded. */
  datatype Pc = Calling | Arming | Parking | Yielding | Asleep | Disarming(added: bool) | Deciding | Ended(out: Outcome)

  /** The runtime, do_io's variables, and what it has been answered and has done so far. `cancelled` names the
      timer whose callback has set it. The timers that the call has armed, those of them that have expired,
      and those that its cancel() came too late for are a record for the proofs. */
  datatype Sys = Sys(m: State, pc: Pc, cancelled: Option<nat>, timer: nat, world: seq<Attempt>, trace: seq<Step>,
                     armed: set<nat>, expired: set<nat>, late: set<nat>)

  datatype Move =
    | Answer(n: int) | Interrupt | Block          // the original function returns
    | Arm(timer: nat) | TryPark(refused: bool) | Sleep | Disarm | Decide
    | Mark(u: nat, timer: nat)                    // that timer's callback, on thread u, sets cancelled
    | Other(step: Step)                           // anything else, also the callback's cancelEvent

  predicate IsRunning(m: State, f: nat) { f in m.fibers && m.fibers[f].state.Running? }

  /** The thread that a running fiber is on. */
  function On(m: State, f: nat): nat
    requires IsRunning(m, f)
  {
    m.fibers[f].state.thread
  }

  /** The step is one of user code. */
  predicate IsUser(x: Step) {
    x.Schedule? || x.ScheduleFiber? || x.AddTimer? || x.CancelTimer? || x.Park? || x.Watch? || x.Delete?
      || x.Cancel? || x.CancelEvery? || x.Yield? || x.Finish?
  }

  /** The step is one of user code, taken by fiber f. */
  predicate Own(m: State, x: Step, f: nat) {
    IsUser(x) && Executes(m, x.t) && Current(m, x.t) == f
  }

  predicate RunsCallback(m: State, u: nat, cb: nat) {
    Executes(m, u) && m.hands[u].task.work == CbWork(cb)
  }

  ghost predicate QueuesCallback(queue: seq<Task>, cb: nat) {
    exists x :: x in queue && x.work == CbWork(cb)
  }

  ghost predicate HoldsCallback(hands: map<nat, Slice>, cb: nat) {
    exists u :: u in hands && hands[u].task.work == CbWork(cb) && !hands[u].phase.Returned?
  }

  ghost predicate ListsCallback(collected: map<nat, seq<nat>>, cb: nat) {
    exists u :: u in collected && cb in collected[u]
  }

  /** A callback that is still to run, or is running: it is queued, in some hand, or to be scheduled by an
      idle fiber. */
  ghost predicate Loose(m: State, cb: nat) {
    QueuesCallback(m.queue, cb) || HoldsCallback(m.hands, cb) || ListsCallback(m.collected, cb)
  }

  /** The callback is registered for no event. */
  ghost predicate Unwatched(fds: seq<FdRecord>, cb: nat) {
    forall fd: nat, e: Event :: Registered(fds, fd, e) != Some(CbWork(cb))
  }

  /** A number that no timer and no callback bears. */
  ghost predicate Unused(m: State, n: nat) {
    n !in m.timers && n !in m.timers.Values && !Loose(m, n) && Unwatched(m.io.fds, n)
  }

  /** The timers of the call and their callbacks are in nobody else's hands: nobody arms or cancels them or
      makes tasks of their callbacks, and they do not recur. */
  predicate Spares(x: Step, armed: set<nat>) {
    match x
    case Post(cb, _) => cb !in armed
    case Schedule(_, cb, _) => cb !in armed
    case AddTimer(_, timer, cb) => timer !in armed && cb !in armed
    case CancelTimer(_, timer) => timer !in armed
    case Watch(_, _, _, cb, _) => cb !in armed
    case Collect(_, _, recurring) => recurring !! armed
    case _ => true
  }

  /** A callback of the call cancels the event and ends, once it has seen that the call has ended or
      `cancelled` is set, or has set it. */
  predicate Lambda(c: Call, s: Sys, x: Step) {
    IsUser(x) && Executes(s.m, x.t) && s.m.hands[x.t].task.work.CbWork? && s.m.hands[x.t].task.work.cb in s.armed ==>
      (s.pc.Ended? || s.cancelled.Some?) && (x.Finish? || (x.Cancel? && x.fd == c.fd && x.e == c.e))
  }

  /** What others may do, and the callbacks apart from setting `cancelled`. */
  predicate Allowed(c: Call, s: Sys, x: Step) {
    !Own(s.m, x, c.f) && Spares(x, s.armed) && Lambda(c, s, x)
  }

  /** The step of the runtime that a move of do_io takes. */
  function StepOf(c: Call, s: Sys, x: Move): Option<Step>
    requires IsRunning(s.m, c.f)
  {
    var t := On(s.m, c.f);
    match x
    case Arm(timer) => Some(AddTimer(t, timer, timer))
    case TryPark(refused) => Some(Park(t, c.fd, c.e, refused))
    case Sleep => Some(Yield(t))
    case Disarm => Some(CancelTimer(t, s.timer))
    case _ => None
  }

  predicate IsNext(pc: Pc, x: Move) {
    match x
    case Answer(_) => pc.Calling?
    case Interrupt => pc.Calling?
    case Block => pc.Calling?
    case Arm(_) => pc.Arming?
    case TryPark(_) => pc.Parking?
    case Sleep => pc.Yielding?
    case Disarm => pc.Disarming?
    case Decide => pc.Deciding?
    case _ => false
  }

  /** The callback does nothing when the call has ended, or when `cancelled` is set. A timer is a new object,
      and so is its callback. */
  ghost predicate CanMove(c: Call, s: Sys, x: Move) {
    if x.Mark? then
      x.timer in s.armed && RunsCallback(s.m, x.u, x.timer) && s.cancelled.None? && !s.pc.Ended?
    else if x.Other? then Enabled(s.m, x.step) && Allowed(c, s, x.step)
    else
      && IsNext(s.pc, x) && IsRunning(s.m, c.f)
      && (x.Arm? ==> x.timer !in s.armed && Unused(s.m, x.timer))
      && (StepOf(c, s, x).Some? ==> Enabled(s.m, StepOf(c, s, x).value))
  }

  /** What do_io does next, once the step of the runtime has been taken. */
  function Go(c: Call, s: Sys, x: Move): Sys
    requires x.Mark? || x.Other? || IsRunning(s.m, c.f)
  {
    match x
    case Answer(n) => s.(pc := Ended(Value(n)), world := s.world + [Answered(n)])
    case Interrupt => s.(world := s.world + [Interrupted])
    case Block => s.(pc := if c.timeout then Arming else Parking)
    case Arm(timer) => s.(pc := Parking, timer := timer, armed := s.armed + {timer})
    case TryPark(refused) =>
      if !refused then s.(pc := Yielding)
      else if c.timeout then s.(pc := Disarming(false))
      else s.(pc := Ended(NotAdded), world := s.world + [WouldBlock(s.timer, true, On(s.m, c.f), false)])
    case Sleep => s.(pc := Asleep)
    case Disarm =>
      var a := s.(late := if s.timer in s.m.timers then s.late else s.late + {s.timer});
      if s.pc.Disarming? && s.pc.added then a.(pc := Deciding)
      else a.(pc := Ended(NotAdded), world := s.world + [WouldBlock(s.timer, true, On(s.m, c.f), false)])
    case Decide =>
      s.(pc := if s.cancelled.Some? then Ended(TimedOut) else Calling,
         world := s.world + [WouldBlock(s.timer, false, On(s.m, c.f), s.cancelled.Some?)])
    case Mark(_, timer) => s.(cancelled := Some(timer))
    case Other(step) =>
      var a := s.(expired := if step.Collect? then s.expired + (set n | n in step.fired && n in s.armed)
          else s.expired);
      if s.pc.Asleep? && step.Resume? && step.f == c.f then
        a.(pc := if c.timeout then Disarming(true) else Deciding)
      else a
  }

  function Moved(c: Call, s: Sys, x: Move): Sys
    requires Shaped(s.m) && CanMove(c, s, x)
  {
    if x.Mark? then Go(c, s, x)
    else if x.Other? then Go(c, s, x).(m := Apply(s.m, x.step))
    else
      var step := StepOf(c, s, x);
      if step.Some? then Go(c, s, x).(m := Apply(s.m, step.value), trace := s.trace + [step.value]) else Go(c, s, x)
  }

  // ---------- the answers and the steps ----------

  /** The thread that do_io is on after some answers. */
  function ThreadAt(t: nat, world: seq<Attempt>): nat
    decreases |world|
  {
    if world == [] then t else ThreadAt(ThreadAfter(t, world[0]), world[1..])
  }

  function TurnsOf(c: Call, t: nat, world: seq<Attempt>): (seq<Step>, Outcome) {
    Turns(t, c.fd, c.e, c.timeout, world)
  }

  lemma {:induction false} OneMoreTurn(c: Call, t: nat, world: seq<Attempt>, a: Attempt)
    requires TurnsOf(c, t, world).1 == GoingOn
    ensures var u := ThreadAt(t, world);
      TurnsOf(c, t, world + [a]) == (TurnsOf(c, t, world).0 + TurnsOf(c, u, [a]).0, TurnsOf(c, u, [a]).1)
    ensures ThreadAt(t, world + [a]) == ThreadAfter(ThreadAt(t, world), a)
    decreases |world|
  {
    hide Turn;
    if world == [] {
      var one := TurnsOf(c, t, [a]).0;
      assert world + [a] == [a] && [a][1..] == [] && [] + one == one;
    } else {
      var next := ThreadAfter(t, world[0]);
      assert (world + [a])[1..] == world[1..] + [a];
      OneMoreTurn(c, next, world[1..], a);
      if world[0].WouldBlock? {
        var turn, more, last := Turn(t, c.fd, c.e, c.timeout, world[0]), TurnsOf(c, next, world[1..]).0,
          TurnsOf(c, ThreadAt(t, world), [a]).0;
        assert turn + (more + last) == turn + more + last;
      }
    }
  }

  function Arms(c: Call, t: nat, timer: nat): seq<Step> {
    if c.timeout then [AddTimer(t, timer, timer)] else []
  }

  /** What do_io has done of its present turn, which it began on thread t. */
  function Partial(c: Call, s: Sys, t: nat): seq<Step> {
    match s.pc
    case Parking => Arms(c, t, s.timer)
    case Yielding => Arms(c, t, s.timer) + [Park(t, c.fd, c.e, false)]
    case Asleep => Arms(c, t, s.timer) + [Park(t, c.fd, c.e, false)] + [Yield(t)]
    case Disarming(added) => Arms(c, t, s.timer) + [Park(t, c.fd, c.e, !added)] + (if added then [Yield(t)] else [])
    case Deciding =>
      Arms(c, t, s.timer) + [Park(t, c.fd, c.e, false)] + [Yield(t)]
      + (if c.timeout && IsRunning(s.m, c.f) then [CancelTimer(On(s.m, c.f), s.timer)] else [])
    case _ => []
  }

  /** What has been answered explains what has been done. */
  ghost predicate Explained(c: Call, s: Sys, t: nat) {
    var (steps, out) := TurnsOf(c, t, s.world);
    && s.trace == steps + Partial(c, s, ThreadAt(t, s.world))
    && out == (if s.pc.Ended? then s.pc.out else GoingOn)
  }

  /** The fiber's state agrees with where do_io stands. */
  ghost predicate InStep(c: Call, s: Sys, t: nat) {
    s.pc.Ended? ||
    (c.f in s.m.fibers &&
    var r := s.m.fibers[c.f];
    match s.pc
    case Asleep => r.state.Ready? && !r.parking
    case Deciding => r.state.Running? && !r.parking
    case Disarming(added) => c.timeout && r.state.Running? && !r.parking
        && (!added ==> r.state.thread == ThreadAt(t, s.world))
    case Yielding => r.state == Running(ThreadAt(t, s.world)) && r.parking
    case Arming => c.timeout && r.state == Running(ThreadAt(t, s.world)) && !r.parking
    case _ => r.state == Running(ThreadAt(t, s.world)) && !r.parking)
  }

  // ---------- the fiber under steps of its own and of others ----------

  /** The fiber is where it was, apart from where its wake-up is. */
  predicate SameActivity(m: State, m': State, f: nat) {
    f in m.fibers && f in m'.fibers && m'.fibers[f].state == m.fibers[f].state
        && m'.fibers[f].parking == m.fibers[f].parking
  }

  lemma FireLeaves(m: State, fd: nat, e: Event, f: nat)
    requires fd < |m.io.fds| && f in m.fibers
    ensures SameActivity(m, Fire(m, fd, e), f)
  {
    hide Clear, Slot;
  }

  lemma TakenLeaves(m: State, fd: nat, k: Mask, r: Reply, f: nat)
    requires (r.ok ==> fd < |m.io.fds|) && f in m.fibers
    ensures SameActivity(m, Taken(m, fd, k, r), f)
  {
    hide Fire;
    if r.ok {
      FireLeaves(m, fd, Read, f);
      FireElsewhere(m, fd, Read);
      FireLeaves(if k.read then Fire(m, fd, Read) else m, fd, Write, f);
    }
  }

  lemma TriggerLeaves(m: State, x: Step, f: nat)
    requires Shaped(m) && Enabled(m, x) && f in m.fibers && (x.Cancel? || x.CancelEvery? || x.Handle?)
    ensures SameActivity(m, Apply(m, x), f)
  {
    hide SameActivity, Shaped, Clear, Taken, RealEvents, EpollCtl;
    match x
    case Cancel(_, fd, e, refused) => TakenLeaves(m, fd, Only(e), CancelEvent(m.io, fd, e, refused), f);
    case CancelEvery(_, fd, refused) => TakenLeaves(m, fd, Mask(true, true), CancelAll(m.io, fd, refused), f);
    case Handle(_, fd, reported, broken, refused) =>
      TakenLeaves(m, fd, RealEvents(m.io.fds[fd].events, reported, broken),
          Report(m.io, fd, reported, broken, refused).value, f);
  }

  lemma PushLeaves(m: State, x: Step, f: nat)
    requires Shaped(m) && Enabled(m, x) && f in m.fibers && !Own(m, x, f)
    requires x.Post? || x.PostFiber? || x.Schedule? || x.ScheduleFiber? || x.Submit?
    ensures SameActivity(m, Apply(m, x), f)
  {
    hide Shaped;
  }

  lemma EventLeaves(m: State, x: Step, f: nat)
    requires Shaped(m) && Enabled(m, x) && f in m.fibers && !Own(m, x, f)
    requires x.Park? || x.Watch? || x.Delete?
    ensures SameActivity(m, Apply(m, x), f)
  {
    hide Shaped, AddEvent, Remove, Registered;
  }

  /** Nobody but the fiber itself and who resumes it changes its state. */
  lemma OthersLeave(m: State, x: Step, f: nat)
    requires Shaped(m) && Enabled(m, x) && f in m.fibers && !Own(m, x, f) && !(x.Resume? && x.f == f)
    ensures SameActivity(m, Apply(m, x), f)
  {
    if x.Cancel? || x.CancelEvery? || x.Handle? {
      TriggerLeaves(m, x, f);
    } else if x.Post? || x.PostFiber? || x.Schedule? || x.ScheduleFiber? || x.Submit? {
      PushLeaves(m, x, f);
    } else if x.Park? || x.Watch? || x.Delete? {
      EventLeaves(m, x, f);
    } else {
      hide Shaped, FirstEligible, AddEvent, Remove, CancelAll, Report, Eligible, Taken, RealEvents, Callbacks, Push;
      hide ParkWith, AfterDelete;
    }
  }

  /** Only a ready fiber is resumed. */
  lemma ResumesReady(m: State, t: nat, f: nat)
    requires Inv(m) && Enabled(m, Resume(t, f)) && f in m.fibers
    ensures m.fibers[f].state == Ready && !m.fibers[f].parking
  {
    assert HeldIs(m.hands, t, f);
    hide LogInv, TasksInv, Valid, Registered, QueuesFiber;
  }

  /** A running fiber is the one that its thread executes. */
  lemma RunningActs(m: State, f: nat)
    requires Inv(m) && IsRunning(m, f)
    ensures Executes(m, On(m, f)) && Current(m, On(m, f)) == f
  {
    hide LogInv, TasksInv, Valid, Homes, Registered, QueuesFiber;
    assert Settled(m.queue, m.hands, m.io.fds, f, m.fibers[f]);
  }

  // ---------- the invariant ----------

  ghost predicate SysInv(c: Call, s: Sys, t: nat) {
    Inv(s.m) && Shaped(s.m) && InStep(c, s, t) && Explained(c, s, t)
  }

  lemma TimerLeaves(m: State, x: Step)
    requires Shaped(m) && Enabled(m, x) && (x.AddTimer? || x.CancelTimer?)
    ensures Apply(m, x).fibers == m.fibers
  {}

  lemma TimerStep(c: Call, s: Sys, x: Move)
    requires Shaped(s.m) && CanMove(c, s, x) && (x.Arm? || x.Disarm?)
    ensures Moved(c, s, x).m.fibers == s.m.fibers
  {
    hide Apply, Enabled, Shaped;
    TimerLeaves(s.m, StepOf(c, s, x).value);
  }

  lemma ParkActs(m: State, t: nat, fd: nat, e: Event, refused: bool)
    requires Inv(m) && Shaped(m) && Enabled(m, Park(t, fd, e, refused))
    ensures var f, m' := Current(m, t), Apply(m, Park(t, fd, e, refused));
      f in m'.fibers && m'.fibers[f].state == m.fibers[f].state
          && (m'.fibers[f].parking <==> m.fibers[f].parking || !refused)
  {
    Unregistered(m.io, fd, e);
    AddEventCorrect(m.io, fd, e, FiberWork(Current(m, t)), refused);
    hide Inv, AddEvent, OnlySlot, SameSlots;
  }

  lemma ParkStep(c: Call, s: Sys, refused: bool)
    requires Inv(s.m) && Shaped(s.m) && CanMove(c, s, TryPark(refused))
    ensures var m := Moved(c, s, TryPark(refused)).m;
      && IsRunning(m, c.f) && On(m, c.f) == On(s.m, c.f)
      && m.fibers[c.f].parking == if refused then s.m.fibers[c.f].parking else true
  {
    hide Inv, Apply, Enabled, Shaped;
    RunningActs(s.m, c.f);
    ParkActs(s.m, On(s.m, c.f), c.fd, c.e, refused);
  }

  lemma YieldStep(c: Call, s: Sys)
    requires Inv(s.m) && Shaped(s.m) && CanMove(c, s, Sleep)
    ensures var m := Moved(c, s, Sleep).m;
      c.f in m.fibers && m.fibers[c.f].state == Ready && !m.fibers[c.f].parking
  {
    RunningActs(s.m, c.f);
    hide Inv;
  }

  /** What a step of somebody else does to the fiber. */
  lemma OtherFiber(m: State, x: Step, f: nat)
    requires Inv(m) && Shaped(m) && Enabled(m, x) && f in m.fibers && !Own(m, x, f)
    ensures if x.Resume? && x.f == f then
        && m.fibers[f].state == Ready && f in Apply(m, x).fibers
        && Apply(m, x).fibers[f].state == Running(x.t) && !Apply(m, x).fibers[f].parking
      else SameActivity(m, Apply(m, x), f)
  {
    if x.Resume? && x.f == f {
      ResumesReady(m, x.t, f);
      hide Inv;
    } else {
      hide Inv, Apply, Enabled;
      OthersLeave(m, x, f);
    }
  }

  lemma OtherStep(c: Call, s: Sys, x: Move, t: nat)
    requires Inv(s.m) && Shaped(s.m) && CanMove(c, s, x) && x.Other? && InStep(c, s, t)
    ensures InStep(c, Moved(c, s, x), t)
  {
    hide Inv, Apply, Enabled, Shaped, Own, ThreadAt;
    if c.f in s.m.fibers { OtherFiber(s.m, x.step, c.f); }
  }

  /** The move ends a turn. */
  predicate EndsTurn(c: Call, s: Sys, x: Move) {
    || x.Answer? || x.Interrupt? || x.Decide?
    || (x.TryPark? && x.refused && !c.timeout) || (x.Disarm? && s.pc.Disarming? && !s.pc.added)
  }

  /** And this is what the turn was answered. */
  function TurnEnd(c: Call, s: Sys, x: Move): Attempt
    requires IsRunning(s.m, c.f)
  {
    match x
    case Answer(n) => Answered(n)
    case Interrupt => Interrupted
    case Decide => WouldBlock(s.timer, false, On(s.m, c.f), s.cancelled.Some?)
    case _ => WouldBlock(s.timer, true, On(s.m, c.f), false)
  }

  lemma TurnIs(c: Call, t: nat, a: Attempt)
    requires a.WouldBlock?
    ensures var arm, park := AddTimer(t, a.timer, a.timer), Park(t, c.fd, c.e, a.refused);
      Turn(t, c.fd, c.e, c.timeout, a) ==
        if a.refused then (if c.timeout then [arm, park, CancelTimer(t, a.timer)] else [park])
        else if c.timeout then [arm, park, Yield(t), CancelTimer(a.on, a.timer)] else [park, Yield(t)]
  {}

  lemma TurnEnds(c: Call, s: Sys, x: Move, t: nat)
    requires Shaped(s.m) && CanMove(c, s, x) && InStep(c, s, t) && Explained(c, s, t) && EndsTurn(c, s, x)
    ensures IsRunning(s.m, c.f) && TurnsOf(c, t, s.world).1 == GoingOn
    ensures var s', u := Moved(c, s, x), ThreadAt(t, s.world);
      && s'.world == s.world + [TurnEnd(c, s, x)]
      && s'.trace == TurnsOf(c, t, s.world).0 + TurnsOf(c, u, [TurnEnd(c, s, x)]).0
      && (if s'.pc.Ended? then s'.pc.out else GoingOn) == TurnsOf(c, u, [TurnEnd(c, s, x)]).1
      && (s'.pc.Ended? || s'.pc.Calling?)
  {
    hide Shaped, Apply, Enabled;
    var u, a := ThreadAt(t, s.world), TurnEnd(c, s, x);
    assert [a][1..] == [] && Turns(ThreadAfter(u, a), c.fd, c.e, c.timeout, []).0 == [];
    if a.WouldBlock? {
      var turn := Turn(u, c.fd, c.e, c.timeout, a);
      var own := if StepOf(c, s, x).Some? then [StepOf(c, s, x).value] else [];
      var before, part := TurnsOf(c, t, s.world).0, Partial(c, s, u);
      assert turn + [] == turn;
      hide TurnsOf;
      TurnIs(c, u, a);
      hide Turn;
      var arm, park := AddTimer(u, s.timer, s.timer), Park(u, c.fd, c.e, a.refused);
      assert part + own == (if a.refused then (if c.timeout then [arm, park, CancelTimer(u, s.timer)] else [park])
                            else if c.timeout then [arm, park, Yield(u), CancelTimer(a.on, s.timer)]
                                else [park, Yield(u)]);
      assert (before + part) + own == before + (part + own);
      assert Moved(c, s, x).trace == s.trace + own;
    }
  }

  lemma TurnGoesOn(c: Call, s: Sys, x: Move, t: nat)
    requires Shaped(s.m) && CanMove(c, s, x) && InStep(c, s, t) && Explained(c, s, t) && !EndsTurn(c, s, x)
    requires x.Arm? || x.TryPark? || x.Sleep? || x.Disarm? || x.Block?
    ensures IsRunning(s.m, c.f) && !s.pc.Ended?
    ensures var s', u := Moved(c, s, x), ThreadAt(t, s.world);
      s'.world == s.world && !s'.pc.Ended?
          && s'.trace == s.trace + (if StepOf(c, s, x).Some? then [StepOf(c, s, x).value] else [])
  {
    hide Apply, Enabled, Shaped;
  }

  lemma PartialGrows(c: Call, s: Sys, x: Move, t: nat)
    requires Inv(s.m) && Shaped(s.m) && CanMove(c, s, x) && InStep(c, s, t) && !EndsTurn(c, s, x)
    requires x.Arm? || x.TryPark? || x.Sleep? || x.Disarm? || x.Block?
    ensures var s', u := Moved(c, s, x), ThreadAt(t, s.world);
      Partial(c, s', u) == Partial(c, s, u) + (if StepOf(c, s, x).Some? then [StepOf(c, s, x).value] else [])
  {
    hide Apply, Enabled, Shaped, Inv, ThreadAt;
    if x.Disarm? { TimerStep(c, s, x); }
  }

  /** The rest of the runtime does not take do_io's steps. */
  lemma OtherExplained(c: Call, s: Sys, x: Move, t: nat)
    requires Inv(s.m) && Shaped(s.m) && CanMove(c, s, x) && x.Other? && InStep(c, s, t) && Explained(c, s, t)
    ensures Explained(c, Moved(c, s, x), t)
  {
    hide Inv, Shaped, Enabled, Apply, Own, ThreadAt, TurnsOf;
    if c.f in s.m.fibers { OtherFiber(s.m, x.step, c.f); }
    assert Partial(c, Moved(c, s, x), ThreadAt(t, s.world)) == Partial(c, s, ThreadAt(t, s.world));
  }

  lemma EndedTurnExplained(c: Call, s: Sys, x: Move, t: nat)
    requires Shaped(s.m) && CanMove(c, s, x) && InStep(c, s, t) && Explained(c, s, t) && EndsTurn(c, s, x)
    ensures Explained(c, Moved(c, s, x), t)
  {
    hide Shaped, InStep, CanMove, Moved, TurnsOf, ThreadAt, TurnEnd, EndsTurn;
    TurnEnds(c, s, x, t);
    OneMoreTurn(c, t, s.world, TurnEnd(c, s, x));
    var s' := Moved(c, s, x);
    assert Partial(c, s', ThreadAt(t, s'.world)) == [];
    assert forall xs: seq<Step> :: xs + [] == xs;
  }

  lemma SteppingExplained(c: Call, s: Sys, x: Move, t: nat)
    requires Inv(s.m) && Shaped(s.m) && CanMove(c, s, x) && InStep(c, s, t) && Explained(c, s, t) && !EndsTurn(c, s, x)
    requires x.Arm? || x.TryPark? || x.Sleep? || x.Disarm? || x.Block?
    ensures Explained(c, Moved(c, s, x), t)
  {
    hide Inv, Shaped, InStep, CanMove, Moved, TurnsOf, ThreadAt, Partial;
    TurnGoesOn(c, s, x, t);
    PartialGrows(c, s, x, t);
  }

  lemma MoveKeepsExplained(c: Call, s: Sys, x: Move, t: nat)
    requires Inv(s.m) && Shaped(s.m) && CanMove(c, s, x) && InStep(c, s, t) && Explained(c, s, t)
    ensures Explained(c, Moved(c, s, x), t)
  {
    if EndsTurn(c, s, x) {
      EndedTurnExplained(c, s, x, t);
    } else if x.Other? {
      OtherExplained(c, s, x, t);
    } else if x.Mark? {
      hide Inv, Shaped, InStep;
      assert Partial(c, Moved(c, s, x), ThreadAt(t, s.world)) == Partial(c, s, ThreadAt(t, s.world));
    } else {
      hide Inv, Shaped, InStep, Explained, CanMove, Moved;
      SteppingExplained(c, s, x, t);
    }
  }

  lemma EndedTurnInStep(c: Call, s: Sys, x: Move, t: nat)
    requires Shaped(s.m) && CanMove(c, s, x) && InStep(c, s, t) && Explained(c, s, t) && EndsTurn(c, s, x)
    ensures InStep(c, Moved(c, s, x), t)
  {
    TurnEnds(c, s, x, t);
    OneMoreTurn(c, t, s.world, TurnEnd(c, s, x));
    hide Shaped, Enabled, Apply, TurnsOf, ThreadAt, Partial, Explained;
  }

  lemma SteppingInStep(c: Call, s: Sys, x: Move, t: nat)
    requires Inv(s.m) && Shaped(s.m) && CanMove(c, s, x) && InStep(c, s, t) && !EndsTurn(c, s, x)
    requires x.Arm? || x.TryPark? || x.Sleep? || x.Disarm? || x.Block?
    ensures InStep(c, Moved(c, s, x), t)
  {
    hide Inv, Shaped, Enabled, Apply, ThreadAt;
    if x.Arm? || x.Disarm? { TimerStep(c, s, x); }
    if x.TryPark? { ParkStep(c, s, x.refused); }
    if x.Sleep? { YieldStep(c, s); }
  }

  lemma MoveKeepsStep(c: Call, s: Sys, x: Move, t: nat)
    requires Inv(s.m) && Shaped(s.m) && CanMove(c, s, x) && InStep(c, s, t) && Explained(c, s, t)
    ensures InStep(c, Moved(c, s, x), t)
  {
    if EndsTurn(c, s, x) {
      EndedTurnInStep(c, s, x, t);
    } else if x.Other? {
      OtherStep(c, s, x, t);
    } else if x.Mark? {
      hide Inv, Shaped, Explained, ThreadAt;
    } else {
      SteppingInStep(c, s, x, t);
    }
  }

  lemma MoveKeepsRuntime(c: Call, s: Sys, x: Move)
    requires Inv(s.m) && Shaped(s.m) && CanMove(c, s, x)
    ensures Inv(Moved(c, s, x).m) && Shaped(Moved(c, s, x).m)
    ensures Reachable(s.m) ==> Reachable(Moved(c, s, x).m)
  {
    hide Inv, Shaped, Enabled, Apply, Reachable, On;
    var step := match x case Other(y) => Some(y) case Mark(_, _) => None case _ => StepOf(c, s, x);
    if step.Some? {
      StepKeepsInv(s.m, step.value);
      if Reachable(s.m) { ReachableNext(s.m, step.value); }
    }
  }

  // ---------- runs ----------

  ghost predicate Goes(c: Call, s: Sys, xs: seq<Move>)
    decreases |xs|
  {
    xs == [] || (Shaped(s.m) && CanMove(c, s, xs[0]) && Goes(c, Moved(c, s, xs[0]), xs[1..]))
  }

  ghost function Later(c: Call, s: Sys, xs: seq<Move>): Sys
    requires Goes(c, s, xs)
    decreases |xs|
  {
    if xs == [] then s else Later(c, Moved(c, s, xs[0]), xs[1..])
  }

  /** Fiber f, running on thread t, calls do_io. */
  ghost predicate Begins(c: Call, m: State, t: nat) {
    Reachable(m) && Acts(m, t) && Current(m, t) == c.f
  }

  function Start(m: State): Sys { Sys(m, Calling, None, 0, [], [], {}, {}, {}) }

  lemma BeginsInStep(c: Call, m: State, t: nat)
    requires Begins(c, m, t)
    ensures SysInv(c, Start(m), t)
  {
    ReachableInv(m);
    InvShapes(m);
    ActingFiber(m, t);
    hide Inv, Shaped, Reachable;
  }

  lemma {:induction false} RunKeepsSysInv(c: Call, s: Sys, t: nat, xs: seq<Move>)
    requires SysInv(c, s, t) && Reachable(s.m) && Goes(c, s, xs)
    ensures SysInv(c, Later(c, s, xs), t) && Reachable(Later(c, s, xs).m)
    decreases |xs|
  {
    hide Inv, Shaped, InStep, Explained, CanMove, Moved, Reachable;
    if xs != [] {
      MoveKeepsRuntime(c, s, xs[0]);
      MoveKeepsStep(c, s, xs[0], t);
      MoveKeepsExplained(c, s, xs[0], t);
      RunKeepsSysInv(c, Moved(c, s, xs[0]), t, xs[1..]);
    }
  }

  /** Whatever the rest of the runtime does in between, do_io's steps and its outcome are those that its
      specification gives for the answers it got; and while it has not ended, it has done the steps for the
      answers so far and a part of its present turn. */
  lemma DoIoOnRuntime(c: Call, m: State, t: nat, xs: seq<Move>)
    requires Begins(c, m, t) && Goes(c, Start(m), xs)
    ensures var s := Later(c, Start(m), xs);
      && Reachable(s.m)
      && (s.pc.Ended? ==> (s.trace, s.pc.out) == Turns(t, c.fd, c.e, c.timeout, s.world))
      && (!s.pc.Ended? ==> Turns(t, c.fd, c.e, c.timeout, s.world).1 == GoingOn)
      && (!s.pc.Ended? ==> Turns(t, c.fd, c.e, c.timeout, s.world).0 <= s.trace)
  {
    BeginsInStep(c, m, t);
    RunKeepsSysInv(c, Start(m), t, xs);
    hide SysInv, Reachable, Goes, Later;
    SysExplained(c, Later(c, Start(m), xs), t);
  }

  lemma SysExplained(c: Call, s: Sys, t: nat)
    requires SysInv(c, s, t)
    ensures s.pc.Ended? ==> (s.trace, s.pc.out) == TurnsOf(c, t, s.world)
    ensures !s.pc.Ended? ==> TurnsOf(c, t, s.world).1 == GoingOn && TurnsOf(c, t, s.world).0 <= s.trace
  {
    var (steps, out) := TurnsOf(c, t, s.world);
    assert s.pc.Ended? ==> steps + [] == steps;
    hide Inv, Shaped, InStep, TurnsOf;
  }

  // ---------- what do_io can do next ----------

  lemma {:induction false} FreshNumber(ns: set<nat>) returns (n: nat)
    ensures n !in ns && forall m :: m in ns ==> m < n
    decreases |ns|
  {
    if ns == {} {
      n := 0;
    } else {
      var x :| x in ns;
      var k := FreshNumber(ns - {x});
      assert forall m :: m in ns ==> m == x || m in ns - {x};
      n := if x < k then k else x + 1;
    }
  }

  function QueuedNumbers(queue: seq<Task>): set<nat> {
    set x | x in queue && x.work.CbWork? :: x.work.cb
  }

  function HandNumbers(hands: map<nat, Slice>): set<nat> {
    set u | u in hands && hands[u].task.work.CbWork? :: hands[u].task.work.cb
  }

  function ListNumbers(collected: map<nat, seq<nat>>): set<nat> {
    set u, k | u in collected && 0 <= k < |collected[u]| :: collected[u][k]
  }

  predicate Watches(fds: seq<FdRecord>, fd: nat, e: Event) {
    Registered(fds, fd, e).Some? && Registered(fds, fd, e).value.CbWork?
  }

  function EventNumbers(fds: seq<FdRecord>, e: Event): set<nat> {
    set fd: nat | fd < |fds| && Watches(fds, fd, e) :: Registered(fds, fd, e).value.cb
  }

  lemma InQueuedNumbers(queue: seq<Task>, n: nat)
    requires QueuesCallback(queue, n)
    ensures n in QueuedNumbers(queue)
  {
    var x :| x in queue && x.work == CbWork(n);
    assert x.work.cb in QueuedNumbers(queue);
  }

  lemma InHandNumbers(hands: map<nat, Slice>, n: nat)
    requires HoldsCallback(hands, n)
    ensures n in HandNumbers(hands)
  {
    var u :| u in hands && hands[u].task.work == CbWork(n);
    assert hands[u].task.work.cb in HandNumbers(hands);
  }

  lemma InListNumbers(collected: map<nat, seq<nat>>, n: nat)
    requires ListsCallback(collected, n)
    ensures n in ListNumbers(collected)
  {
    var u :| u in collected && n in collected[u];
    var k :| 0 <= k < |collected[u]| && collected[u][k] == n;
    assert collected[u][k] in ListNumbers(collected);
  }

  lemma InEventNumbers(fds: seq<FdRecord>, fd: nat, e: Event, n: nat)
    requires Registered(fds, fd, e) == Some(CbWork(n))
    ensures n in EventNumbers(fds, Read) + EventNumbers(fds, Write)
  {
    assert e == Read || e == Write;
    assert fd < |fds| && Watches(fds, fd, e) && Registered(fds, fd, e).value.cb == n;
  }

  /** There is always a number for one more timer. */
  lemma FreshTimer(m: State, armed: set<nat>) returns (n: nat)
    ensures n !in armed && Unused(m, n)
  {
    hide QueuedNumbers, HandNumbers, ListNumbers, EventNumbers, QueuesCallback, HoldsCallback, ListsCallback;
    var used := QueuedNumbers(m.queue) + HandNumbers(m.hands) + ListNumbers(m.collected);
    var watched := EventNumbers(m.io.fds, Read) + EventNumbers(m.io.fds, Write);
    n := FreshNumber(armed + m.timers.Keys + m.timers.Values + used + watched);
    if QueuesCallback(m.queue, n) { InQueuedNumbers(m.queue, n); }
    if HoldsCallback(m.hands, n) { InHandNumbers(m.hands, n); }
    if ListsCallback(m.collected, n) { InListNumbers(m.collected, n); }
    hide Registered;
    forall fd: nat, e: Event ensures Registered(m.io.fds, fd, e) != Some(CbWork(n)) {
      if Registered(m.io.fds, fd, e) == Some(CbWork(n)) {
        InEventNumbers(m.io.fds, fd, e, n);
      }
    }
  }

  /** The next step of do_io can always be taken when its fiber runs, except that addEvent must not find
      somebody else registered for the same event. */
  lemma DoIoCanGoOn(c: Call, m: State, t: nat, xs: seq<Move>)
    requires Begins(c, m, t) && Goes(c, Start(m), xs)
    ensures var s := Later(c, Start(m), xs);
      && (s.pc.Calling? ==> CanMove(c, s, Interrupt) && CanMove(c, s, Block) && forall n :: CanMove(c, s, Answer(n)))
      && (s.pc.Arming? ==> forall timer ::
            timer !in s.armed && Unused(s.m, timer) <==> CanMove(c, s, Arm(timer)))
      && (s.pc.Arming? ==> exists timer :: CanMove(c, s, Arm(timer)))
      && (s.pc.Parking? ==>
            forall refused :: CanMove(c, s, TryPark(refused)) <==> Registered(s.m.io.fds, c.fd, c.e) == None)
      && (s.pc.Yielding? ==> CanMove(c, s, Sleep))
      && (s.pc.Disarming? ==> CanMove(c, s, Disarm))
      && (s.pc.Deciding? ==> CanMove(c, s, Decide))
      && (s.pc.Asleep? ==> s.m.fibers.Keys >= {c.f} && s.m.fibers[c.f].state == Ready)
  {
    BeginsInStep(c, m, t);
    RunKeepsSysInv(c, Start(m), t, xs);
    var s := Later(c, Start(m), xs);
    hide Goes, Later;
    NextIsEnabled(c, s, t);
    var timer := FreshTimer(s.m, s.armed);
    hide SysInv, CanMove, Unused;
  }

  lemma NextIsEnabled(c: Call, s: Sys, t: nat)
    requires SysInv(c, s, t)
    ensures s.pc.Calling? ==> CanMove(c, s, Interrupt) && CanMove(c, s, Block) && forall n :: CanMove(c, s, Answer(n))
    ensures s.pc.Arming? ==> forall timer ::
      timer !in s.armed && Unused(s.m, timer) <==> CanMove(c, s, Arm(timer))
    ensures s.pc.Parking? ==>
      forall refused :: CanMove(c, s, TryPark(refused)) <==> Registered(s.m.io.fds, c.fd, c.e) == None
    ensures s.pc.Yielding? ==> CanMove(c, s, Sleep)
    ensures s.pc.Disarming? ==> CanMove(c, s, Disarm)
    ensures s.pc.Deciding? ==> CanMove(c, s, Decide)
    ensures s.pc.Asleep? ==> s.m.fibers.Keys >= {c.f} && s.m.fibers[c.f].state == Ready
  {
    hide Inv, Shaped, Explained, ThreadAt, Registered, Enabled;
    if IsRunning(s.m, c.f) { RunningEnabled(s.m, c, s.timer); }
  }

  /** The steps of do_io that a running fiber can take. */
  lemma RunningEnabled(m: State, c: Call, timer: nat)
    requires Inv(m) && IsRunning(m, c.f)
    ensures var t := On(m, c.f);
      && Enabled(m, Yield(t))
      && (!m.fibers[c.f].parking ==>
            && (forall timer :: Enabled(m, AddTimer(t, timer, timer)) <==> timer !in m.timers)
            && Enabled(m, CancelTimer(t, timer))
            && (forall refused :: Enabled(m, Park(t, c.fd, c.e, refused)) <==> Registered(m.io.fds, c.fd, c.e) == None))
  {
    hide Inv, Registered, Valid;
    RunningActs(m, c.f);
    assert Valid(m.io) by { IoValid(m); }
    SlotFree(m.io, c.fd, c.e);
  }

  lemma IoValid(m: State)
    requires Inv(m)
    ensures Valid(m.io)
  {
    hide LogInv, TasksInv, FibersInv, Valid;
  }

  lemma SlotFree(io: Io, fd: nat, e: Event)
    requires Valid(io)
    ensures Registered(io.fds, fd, e) == None <==> (fd < |io.fds| ==> !Has(io.fds[fd].events, e))
  {
    hide PendingSum, Mirrors;
    if fd < |io.fds| { assert Filled(io.fds[fd]); }
  }

  // ---------- states that occur ----------

  ghost predicate Comes(c: Call, m: State, t: nat, xs: seq<Move>, s: Sys) {
    Begins(c, m, t) && Goes(c, Start(m), xs) && Later(c, Start(m), xs) == s
  }

  /** The state occurs while fiber f is in do_io. */
  ghost predicate Occurs(c: Call, s: Sys) {
    exists m, t, xs :: Comes(c, m, t, xs, s)
  }

  lemma {:induction false} GoesOneMore(c: Call, s: Sys, xs: seq<Move>, x: Move)
    requires Goes(c, s, xs) && Shaped(Later(c, s, xs).m) && CanMove(c, Later(c, s, xs), x)
    ensures Goes(c, s, xs + [x]) && Later(c, s, xs + [x]) == Moved(c, Later(c, s, xs), x)
    decreases |xs|
  {
    hide Shaped, CanMove, Moved;
    if xs == [] {
      assert [] + [x] == [x] && [x][1..] == [];
      assert Goes(c, Moved(c, s, x), []);
    } else {
      assert (xs + [x])[1..] == xs[1..] + [x];
      GoesOneMore(c, Moved(c, s, xs[0]), xs[1..], x);
    }
  }

  lemma OccursInv(c: Call, s: Sys)
    requires Occurs(c, s)
    ensures Reachable(s.m) && Inv(s.m) && Shaped(s.m)
  {
    var m, t, xs :| Comes(c, m, t, xs, s);
    DoIoOnRuntime(c, m, t, xs);
    ReachableInv(s.m);
    InvShapes(s.m);
  }

  lemma OccursInStep(c: Call, s: Sys)
    requires Occurs(c, s)
    ensures exists t :: SysInv(c, s, t)
  {
    var m, t, xs :| Comes(c, m, t, xs, s);
    BeginsInStep(c, m, t);
    RunKeepsSysInv(c, Start(m), t, xs);
  }

  lemma OccursNext(c: Call, s: Sys, x: Move)
    requires Occurs(c, s) && CanMove(c, s, x)
    ensures Shaped(s.m) && Occurs(c, Moved(c, s, x))
  {
    OccursInv(c, s);
    hide Begins, Inv, Shaped, Goes, Later, CanMove, Moved;
    var m, t, xs :| Comes(c, m, t, xs, s);
    GoesOneMore(c, Start(m), xs, x);
    assert Comes(c, m, t, xs + [x], Moved(c, s, x));
  }
}
