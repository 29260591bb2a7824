/** The registration layer of the IO manager: contexts per descriptor, the epoll interest set that has to
    mirror them, and the count of pending events. Each function is one block under the context's mutex. */
module EventSpec {
  import opened Wrappers

  datatype Event = Read | Write

  /** A set of events: the bits EPOLLIN and EPOLLOUT. */
  datatype Mask = Mask(read: bool, write: bool)

  const NONE := Mask(false, false)

  predicate Has(m: Mask, e: Event) { if e.Read? then m.read else m.write }
  function With(m: Mask, e: Event): Mask { if e.Read? then m.(read := true) else m.(write := true) }
  function Without(m: Mask, e: Event): Mask { if e.Read? then m.(read := false) else m.(write := false) }
  function Common(a: Mask, b: Mask): Mask { Mask(a.read && b.read, a.write && b.write) }
  function Union(a: Mask, b: Mask): Mask { Mask(a.read || b.read, a.write || b.write) }
  function Minus(a: Mask, b: Mask): Mask { Mask(a.read && !b.read, a.write && !b.write) }
  predicate Within(a: Mask, b: Mask) { (a.read ==> b.read) && (a.write ==> b.write) }
  function Bits(m: Mask): nat { (if m.read then 1 else 0) + (if m.write then 1 else 0) }

  /** What a task or an event context runs: a fiber, or a callback on a fiber of its own. */
  datatype Work = FiberWork(fiber: nat) | CbWork(cb: nat)

  /** FdContext: the event bits and the two event contexts, None when reset. */
  datatype FdRecord = FdRecord(events: Mask, read: Option<Work>, write: Option<Work>)

  const NoEvents := FdRecord(NONE, None, None)

  function Slot(c: FdRecord, e: Event): Option<Work> { if e.Read? then c.read else c.write }
  function SetSlot(c: FdRecord, e: Event, w: Option<Work>): FdRecord {
    if e.Read? then c.(read := w) else c.(write := w)
  }

  datatype Io = Io(fds: seq<FdRecord>, interest: map<nat, Mask>, pending: int)

  /** Who waits for the event of a descriptor. */
  function Registered(fds: seq<FdRecord>, fd: nat, e: Event): Option<Work> {
    if fd < |fds| then Slot(fds[fd], e) else None
  }

  // ---------- the kernel ----------

  datatype EpollOp = Add | Mod | Del

  /** A descriptor is added once, and modified or deleted only while it is there. */
  predicate Legal(interest: map<nat, Mask>, op: EpollOp, fd: nat) {
    op.Add? <==> fd !in interest
  }

  /** epoll_ctl; None is a non-zero result: an illegal operation, or `refused` for any other reason. */
  function EpollCtl(interest: map<nat, Mask>, op: EpollOp, fd: nat, m: Mask, refused: bool): Option<map<nat, Mask>> {
    if refused || !Legal(interest, op, fd) then None
    else if op.Del? then Some(interest - {fd})
    else Some(interest[fd := m])
  }

  // ---------- operations ----------

  /** The new state, whether the call succeeded, and what it put on the task queue, in order. */
  datatype Reply = Reply(io: Io, ok: bool, woken: seq<Work>)

  /** contextResize(fd * 1.5), when the table is too short for fd. */
  function Grow(fds: seq<FdRecord>, fd: nat): (r: seq<FdRecord>)
    requires |fds| >= 2
    ensures fd < |r| && fds <= r && forall i :: |fds| <= i < |r| ==> r[i] == NoEvents
    ensures fd < |fds| ==> r == fds
  {
    if fd < |fds| then fds else fds + seq(fd + fd / 2 - |fds|, i => NoEvents)
  }

  function AddEvent(io: Io, fd: nat, e: Event, w: Work, refused: bool): Reply
    requires |io.fds| >= 2 && (fd < |io.fds| ==> !Has(io.fds[fd].events, e))
  {
    var fds := Grow(io.fds, fd);
    var c := fds[fd];
    var events := With(c.events, e);
    match EpollCtl(io.interest, if c.events == NONE then Add else Mod, fd, events, refused)
    case None => Reply(Io(fds, io.interest, io.pending), false, [])
    case Some(interest) =>
      Reply(Io(fds[fd := SetSlot(c.(events := events), e, Some(w))], interest, io.pending + 1), true, [])
  }

  /** triggerEvent, as far as the context goes; the assertion on the event bit is the precondition. */
  function Clear(fds: seq<FdRecord>, fd: nat, e: Event): (r: seq<FdRecord>)
    requires fd < |fds|
    ensures |r| == |fds|
  {
    fds[fd := SetSlot(fds[fd].(events := Without(fds[fd].events, e)), e, None)]
  }

  function ClearAll(fds: seq<FdRecord>, fd: nat, m: Mask): (r: seq<FdRecord>)
    requires fd < |fds|
    ensures |r| == |fds|
  {
    var a := if m.read then Clear(fds, fd, Read) else fds;
    if m.write then Clear(a, fd, Write) else a
  }

  function Waiter(c: FdRecord, e: Event): seq<Work> {
    if Slot(c, e).Some? then [Slot(c, e).value] else []
  }

  function Waiters(c: FdRecord, m: Mask): seq<Work> {
    (if m.read then Waiter(c, Read) else []) + (if m.write then Waiter(c, Write) else [])
  }

  function OpFor(left: Mask): EpollOp { if left == NONE then Del else Mod }

  /** The common part of delEvent and cancelEvent; only the latter wakes who waits. */
  function Remove(io: Io, fd: nat, e: Event, wake: bool, refused: bool): Reply {
    if fd >= |io.fds| || !Has(io.fds[fd].events, e) then Reply(io, false, [])
    else
      var c := io.fds[fd];
      var left := Without(c.events, e);
      match EpollCtl(io.interest, OpFor(left), fd, left, refused)
      case None => Reply(io, false, [])
      case Some(interest) =>
        Reply(Io(Clear(io.fds, fd, e), interest, io.pending - 1), true, if wake then Waiter(c, e) else [])
  }

  function DelEvent(io: Io, fd: nat, e: Event, refused: bool): Reply { Remove(io, fd, e, false, refused) }
  function CancelEvent(io: Io, fd: nat, e: Event, refused: bool): Reply { Remove(io, fd, e, true, refused) }

  function CancelAll(io: Io, fd: nat, refused: bool): Reply {
    if fd >= |io.fds| || io.fds[fd].events == NONE then Reply(io, false, [])
    else
      var c := io.fds[fd];
      match EpollCtl(io.interest, Del, fd, NONE, refused)
      case None => Reply(io, false, [])
      case Some(interest) =>
        Reply(Io(ClearAll(io.fds, fd, c.events), interest, io.pending - Bits(c.events)), true, Waiters(c, c.events))
  }

  /** What an epoll report means for a context: an error or a hang-up stands for both registered events. */
  function RealEvents(events: Mask, reported: Mask, broken: bool): Mask {
    if broken then Union(reported, events) else reported
  }

  /** One turn of the loop over epoll's reports in idle; None when triggerEvent's assertion fails. */
  function Report(io: Io, fd: nat, reported: Mask, broken: bool, refused: bool): Option<Reply>
    requires fd < |io.fds|
  {
    var c := io.fds[fd];
    var hit := RealEvents(c.events, reported, broken);
    if Common(c.events, hit) == NONE then Some(Reply(io, false, []))
    else
      var left := Minus(c.events, hit);
      match EpollCtl(io.interest, OpFor(left), fd, left, refused)
      case None => Some(Reply(io, false, []))
      case Some(interest) =>
        if !Within(hit, c.events) then None
        else Some(Reply(Io(ClearAll(io.fds, fd, hit), interest, io.pending - Bits(hit)), true, Waiters(c, hit)))
  }

  // ---------- the invariant ----------

  function PendingSum(fds: seq<FdRecord>): (n: nat)
  {
    if fds == [] then 0 else PendingSum(fds[..|fds| - 1]) + Bits(fds[|fds| - 1].events)
  }

  /** An event context is filled exactly when its bit is set. */
  predicate Filled(c: FdRecord) {
    (c.events.read <==> c.read.Some?) && (c.events.write <==> c.write.Some?)
  }

  /** The interest set mirrors the contexts. */
  ghost predicate Mirrors(fds: seq<FdRecord>, interest: map<nat, Mask>) {
    && (forall fd :: fd in interest ==> fd < |fds| && interest[fd] == fds[fd].events && fds[fd].events != NONE)
    && (forall fd: nat :: fd < |fds| && fds[fd].events != NONE ==> fd in interest)
  }

  ghost predicate Valid(io: Io) {
    && |io.fds| >= 32
    && (forall i :: 0 <= i < |io.fds| ==> Filled(io.fds[i]))
    && Mirrors(io.fds, io.interest)
    && io.pending == PendingSum(io.fds)
  }

  lemma {:induction false} SumUpdate(fds: seq<FdRecord>, i: nat, c: FdRecord)
    requires i < |fds|
    ensures PendingSum(fds[i := c]) == PendingSum(fds) - Bits(fds[i].events) + Bits(c.events)
    decreases |fds|
  {
    var n := |fds| - 1;
    if i < n {
      SumUpdate(fds[..n], i, c);
      assert fds[i := c][..n] == fds[..n][i := c];
    } else {
      assert fds[i := c][..n] == fds[..n];
    }
  }

  lemma {:induction false} SumGrow(fds: seq<FdRecord>, more: seq<FdRecord>)
    requires forall i :: 0 <= i < |more| ==> more[i] == NoEvents
    ensures PendingSum(fds + more) == PendingSum(fds)
    decreases |more|
  {
    if more == [] {
      assert fds + more == fds;
    } else {
      var n := |more| - 1;
      SumGrow(fds, more[..n]);
      assert (fds + more)[..|fds + more| - 1] == fds + more[..n];
    }
  }

  lemma {:induction false} SumPositive(fds: seq<FdRecord>, i: nat)
    requires i < |fds|
    ensures PendingSum(fds) >= Bits(fds[i].events)
    decreases |fds|
  {
    if i < |fds| - 1 { SumPositive(fds[..|fds| - 1], i); }
  }

  lemma {:induction false} EmptySum(fds: seq<FdRecord>)
    requires forall i :: 0 <= i < |fds| ==> fds[i] == NoEvents
    ensures PendingSum(fds) == 0
    decreases |fds|
  {
    if fds != [] { EmptySum(fds[..|fds| - 1]); }
  }

  lemma EmptyIsValid(fds: seq<FdRecord>)
    requires |fds| >= 32 && forall i :: 0 <= i < |fds| ==> fds[i] == NoEvents
    ensures Valid(Io(fds, map[], 0))
  {
    EmptySum(fds);
    hide PendingSum;
  }

  /** A count of zero means that nobody is registered anywhere. */
  lemma NothingPending(io: Io, fd: nat, e: Event)
    requires Valid(io) && io.pending == 0
    ensures Registered(io.fds, fd, e) == None
  {
    if fd < |io.fds| { SumPositive(io.fds, fd); }
  }

  /** Only this registration differs. */
  ghost predicate OnlySlot(a: seq<FdRecord>, b: seq<FdRecord>, fd: nat, e: Event, w: Option<Work>) {
    forall fd2: nat, e2: Event :: Registered(b, fd2, e2) == if fd2 == fd && e2 == e then w else Registered(a, fd2, e2)
  }

  ghost predicate SameSlots(a: seq<FdRecord>, b: seq<FdRecord>) {
    forall fd: nat, e: Event :: Registered(b, fd, e) == Registered(a, fd, e)
  }

  lemma GrowKeeps(io: Io, fd: nat)
    requires Valid(io)
    ensures Valid(io.(fds := Grow(io.fds, fd)))
    ensures SameSlots(io.fds, Grow(io.fds, fd))
    ensures fd < |io.fds| ==> Grow(io.fds, fd)[fd] == io.fds[fd]
    ensures fd >= |io.fds| ==> Grow(io.fds, fd)[fd] == NoEvents
  {
    var g := Grow(io.fds, fd);
    assert g == io.fds + g[|io.fds|..];
    SumGrow(io.fds, g[|io.fds|..]);
    hide PendingSum, Grow;
  }

  lemma PutKeeps(io: Io, fd: nat, c: FdRecord, interest: map<nat, Mask>)
    requires Valid(io) && fd < |io.fds| && Filled(c)
    requires interest == (if c.events == NONE then io.interest - {fd} else io.interest[fd := c.events])
    ensures Valid(Io(io.fds[fd := c], interest, io.pending - Bits(io.fds[fd].events) + Bits(c.events)))
  {
    SumUpdate(io.fds, fd, c);
    hide PendingSum, Bits;
  }

  /** addEvent picks the legal operation, so only a refusal makes it fail; a failure registers nothing and
      a success registers exactly this work. */
  lemma AddEventCorrect(io: Io, fd: nat, e: Event, w: Work, refused: bool)
    requires Valid(io) && Registered(io.fds, fd, e) == None
    ensures fd < |io.fds| ==> !Has(io.fds[fd].events, e)
    ensures var r := AddEvent(io, fd, e, w, refused);
      && Valid(r.io) && (r.ok <==> !refused) && r.woken == []
      && |r.io.fds| == (if fd < |io.fds| then |io.fds| else fd * 3 / 2)
      && (r.ok ==> r.io.pending == io.pending + 1 && OnlySlot(io.fds, r.io.fds, fd, e, Some(w)))
      && (!r.ok ==> r.io.pending == io.pending && r.io.interest == io.interest && SameSlots(io.fds, r.io.fds))
  {
    GrowKeeps(io, fd);
    var g := io.(fds := Grow(io.fds, fd));
    var c := g.fds[fd];
    var c' := SetSlot(c.(events := With(c.events, e)), e, Some(w));
    assert Registered(g.fds, fd, e) == None;
    if !refused {
      PutKeeps(g, fd, c', g.interest[fd := c'.events]);
    }
    hide Valid, Grow;
  }

  lemma ClearIs(fds: seq<FdRecord>, fd: nat, m: Mask)
    requires fd < |fds|
    ensures var c := fds[fd];
      var left := FdRecord(Minus(c.events, m), if m.read then None else c.read, if m.write then None else c.write);
      ClearAll(fds, fd, m) == fds[fd := left]
  {}

  /** Who is left registered after the events of `m` have been taken from fd. */
  ghost predicate WithoutSlots(a: seq<FdRecord>, b: seq<FdRecord>, fd: nat, m: Mask) {
    forall fd2: nat, e: Event :: Registered(b, fd2, e) == if fd2 == fd && Has(m, e) then None else Registered(a, fd2, e)
  }

  lemma TakeKeeps(io: Io, fd: nat, m: Mask)
    requires Valid(io) && fd < |io.fds| && Within(m, io.fds[fd].events) && m != NONE
    ensures var left := Minus(io.fds[fd].events, m);
      && Legal(io.interest, OpFor(left), fd)
      && EpollCtl(io.interest, OpFor(left), fd, left, false).Some?
      && Valid(Io(ClearAll(io.fds, fd, m), EpollCtl(io.interest, OpFor(left), fd, left, false).value,
          io.pending - Bits(m)))
    ensures WithoutSlots(io.fds, ClearAll(io.fds, fd, m), fd, m)
  {
    ClearIs(io.fds, fd, m);
    var c := ClearAll(io.fds, fd, m)[fd];
    PutKeeps(io, fd, c, if c.events == NONE then io.interest - {fd} else io.interest[fd := c.events]);
    hide PendingSum, Valid, ClearAll;
  }

  function Only(e: Event): Mask { Mask(e.Read?, e.Write?) }

  /** delEvent and cancelEvent: they succeed exactly when somebody is registered and the kernel does not
      refuse; then this registration, and no other, is gone, and a cancelled one is woken. */
  lemma RemoveCorrect(io: Io, fd: nat, e: Event, wake: bool, refused: bool)
    requires Valid(io)
    ensures var r := Remove(io, fd, e, wake, refused);
      && Valid(r.io) && (r.ok <==> Registered(io.fds, fd, e).Some? && !refused)
      && (!r.ok ==> r == Reply(io, false, []))
      && (r.ok ==> r.io.pending == io.pending - 1 && OnlySlot(io.fds, r.io.fds, fd, e, None))
      && (r.ok ==> r.woken == if wake then [Registered(io.fds, fd, e).value] else [])
  {
    if fd < |io.fds| && Has(io.fds[fd].events, e) {
      TakeKeeps(io, fd, Only(e));
      assert Clear(io.fds, fd, e) == ClearAll(io.fds, fd, Only(e));
      assert Minus(io.fds[fd].events, Only(e)) == Without(io.fds[fd].events, e);
      hide PendingSum, ClearAll, Mirrors, Clear;
    }
  }

  /** cancelAll: likewise for everything registered on the descriptor, the reader before the writer. */
  lemma CancelAllCorrect(io: Io, fd: nat, refused: bool)
    requires Valid(io)
    ensures var r := CancelAll(io, fd, refused);
      && Valid(r.io)
      && (r.ok <==> (Registered(io.fds, fd, Read).Some? || Registered(io.fds, fd, Write).Some?) && !refused)
      && (!r.ok ==> r == Reply(io, false, []))
      && (r.ok ==> WithoutSlots(io.fds, r.io.fds, fd, Mask(true, true)) && r.io.pending == io.pending - |r.woken|)
      && (r.ok ==> r.woken == Waiters(io.fds[fd], Mask(true, true)))
  {
    if fd < |io.fds| && io.fds[fd].events != NONE {
      TakeKeeps(io, fd, io.fds[fd].events);
      assert Minus(io.fds[fd].events, io.fds[fd].events) == NONE;
      assert Filled(io.fds[fd]);
      hide PendingSum, ClearAll, Mirrors;
    }
  }

  /** A report is handled without tripping the assertion exactly when the handler takes nothing, is
      refused, or every reported event is still registered; then exactly the reported registrations are
      gone and woken. */
  lemma ReportCorrect(io: Io, fd: nat, reported: Mask, broken: bool, refused: bool)
    requires Valid(io) && fd < |io.fds|
    ensures var events := io.fds[fd].events;
      && (Report(io, fd, reported, broken, refused) == None <==>
          && !refused && !Within(reported, events)
          && (if broken then events != NONE else Common(events, reported) != NONE))
    ensures var hit, r := RealEvents(io.fds[fd].events, reported, broken), Report(io, fd, reported, broken, refused);
      r.Some? ==>
        && Valid(r.value.io)
        && (!r.value.ok ==> r.value == Reply(io, false, []))
        && (r.value.ok <==> hit != NONE && Within(hit, io.fds[fd].events) && !refused)
        && (r.value.ok ==>
              && WithoutSlots(io.fds, r.value.io.fds, fd, hit)
              && r.value.io.pending == io.pending - |r.value.woken|)
        && (r.value.ok ==> r.value.woken == Waiters(io.fds[fd], hit))
  {
    var c := io.fds[fd];
    var hit := RealEvents(c.events, reported, broken);
    assert Filled(c);
    if Within(hit, c.events) && hit != NONE {
      TakeKeeps(io, fd, hit);
      hide PendingSum, ClearAll, Mirrors, Legal;
    } else if Common(c.events, hit) != NONE {
      assert Legal(io.interest, OpFor(Minus(c.events, hit)), fd);
      hide PendingSum, ClearAll, Mirrors, Legal;
    }
  }

  /** Such a report exists whenever both events are registered: epoll reports them, and the reader is
      cancelled before the handler gets the lock. */
  lemma StaleReportAborts(io: Io, fd: nat)
    requires Valid(io) && Registered(io.fds, fd, Read).Some? && Registered(io.fds, fd, Write).Some?
    ensures fd < |CancelEvent(io, fd, Read, false).io.fds|
    ensures Report(CancelEvent(io, fd, Read, false).io, fd, Mask(true, true), false, false) == None
  {
    RemoveCorrect(io, fd, Read, true, false);
    var after := CancelEvent(io, fd, Read, false).io;
    assert Registered(after.fds, fd, Read) == None && Registered(after.fds, fd, Write).Some?;
    hide PendingSum, Mirrors, Remove, Report, OnlySlot;
    ReportCorrect(after, fd, Mask(true, true), false, false);
  }
}
