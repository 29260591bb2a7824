/** do_io: a system call on a non-blocking socket that parks the fiber until the descriptor is ready. */
module Hook {
  import opened EventSpec
  import opened Runtime

  /** What the world answers: one call of the original function, and for a call that would block also
      whether addEvent is refused, on which thread the fiber is resumed, and whether the timeout has struck
      by then. */
  datatype Attempt = Answered(n: int) | Interrupted | WouldBlock(timer: nat, refused: bool, on: nat, timedOut: bool)

  /** What do_io finds out about the descriptor before it starts. */
  datatype Descriptor = Unhooked | Closed | Blocking(timeout: bool)

  /** GoingOn: the answers given so far do not end the call. Direct is the original function's own
      answer, whatever it is. */
  datatype Outcome = Value(n: int) | BadFd | Direct(a: Attempt) | NotAdded | TimedOut | GoingOn

  /** The thread that the fiber is on after an answer. */
  function ThreadAfter(t: nat, a: Attempt): nat {
    if a.WouldBlock? && !a.refused then a.on else t
  }

  /** One turn behind `retry`: arm a timer if there is a timeout, park, yield, disarm. The callback made for
      a timer bears the timer's number. */
  function Turn(t: nat, fd: nat, e: Event, timeout: bool, a: Attempt): seq<Step>
    requires a.WouldBlock?
  {
    (if timeout then [AddTimer(t, a.timer, a.timer)] else [])
    + [Park(t, fd, e, a.refused)]
    + (if a.refused then [] else [Yield(t)])
    + (if timeout then [CancelTimer(ThreadAfter(t, a), a.timer)] else [])
  }

  /** The steps of the calling fiber and the outcome, turn by turn. */
  function Turns(t: nat, fd: nat, e: Event, timeout: bool, world: seq<Attempt>): (seq<Step>, Outcome)
    decreases |world|
  {
    if world == [] then ([], GoingOn)
    else match world[0]
      case Answered(n) => ([], Value(n))
      case Interrupted => Turns(t, fd, e, timeout, world[1..])
      case WouldBlock(_, refused, on, timedOut) =>
        var steps := Turn(t, fd, e, timeout, world[0]);
        if refused then (steps, NotAdded)
        else if timedOut then (steps, TimedOut)
        else
          var (more, out) := Turns(on, fd, e, timeout, world[1..]);
          (steps + more, out)
  }

  /** do_io */
  method DoIo(t: nat, fd: nat, e: Event, ctx: Descriptor, world: seq<Attempt>)
    returns (steps: seq<Step>, out: Outcome)
    requires world != []
    ensures ctx.Unhooked? ==> steps == [] && out == Direct(world[0])
    ensures ctx.Closed? ==> steps == [] && out == BadFd
    ensures ctx.Blocking? ==> (steps, out) == Turns(t, fd, e, ctx.timeout, world)
  {
    steps, out := [], GoingOn;
    match ctx
    case Unhooked => out := Direct(world[0]);
    case Closed => out := BadFd;
    case Blocking(timeout) =>
      var k := 0;
      var self := t;
      assert world[0..] == world && [] + Turns(t, fd, e, timeout, world).0 == Turns(t, fd, e, timeout, world).0;
      while k < |world|
        invariant 0 <= k <= |world|
        invariant out == GoingOn
        invariant Turns(t, fd, e, timeout, world) ==
          (steps + Turns(self, fd, e, timeout, world[k..]).0, Turns(self, fd, e, timeout, world[k..]).1)
      {
        var a := world[k];
        ghost var rest := Turns(ThreadAfter(self, a), fd, e, timeout, world[k + 1..]);
        assert world[k..][0] == a && world[k..][1..] == world[k + 1..];
        match a {
          case Answered(n) =>
            assert steps + [] == steps;
            out := Value(n);
            return;
          case Interrupted =>
          case WouldBlock(timer, refused, on, timedOut) =>
            var arm := if timeout then [AddTimer(self, timer, timer)] else [];
            if refused {
              var disarm := if timeout then [CancelTimer(self, timer)] else [];
              steps := steps + (arm + [Park(self, fd, e, true)] + [] + disarm);
              out := NotAdded;
              return;
            }
            assert steps + (Turn(self, fd, e, timeout, a) + rest.0)
                == steps + Turn(self, fd, e, timeout, a) + rest.0;
            var asleep := arm + [Park(self, fd, e, false)] + [Yield(self)];
            self := on;
            var disarm := if timeout then [CancelTimer(self, timer)] else [];
            steps := steps + (asleep + disarm);
            if timedOut {
              out := TimedOut;
              return;
            }
        }
        k := k + 1;
      }
      assert steps + [] == steps;
  }

  // ---------- what the steps are ----------

  /** A fiber that has parked yields next, and does nothing in between. */
  predicate ParksThenYields(steps: seq<Step>) {
    forall i :: 0 <= i < |steps| && steps[i].Park? && !steps[i].refused ==>
      i + 1 < |steps| && steps[i + 1] == Yield(steps[i].t)
  }

  /** The timers armed by these steps and not disarmed again. */
  function Armed(steps: seq<Step>): set<nat>
  {
    if steps == [] then {}
    else
      var before := Armed(steps[..|steps| - 1]);
      match steps[|steps| - 1]
      case AddTimer(_, timer, _) => before + {timer}
      case CancelTimer(_, timer) => before - {timer}
      case _ => before
  }

  function Parks(steps: seq<Step>): nat {
    if steps == [] then 0 else Parks(steps[..|steps| - 1]) + (if steps[|steps| - 1].Park? then 1 else 0)
  }

  lemma {:induction false} Appended(a: seq<Step>, b: seq<Step>)
    requires ParksThenYields(a) && ParksThenYields(b) && Armed(a) == {}
    ensures ParksThenYields(a + b) && Armed(a + b) == Armed(b) && Parks(a + b) == Parks(a) + Parks(b)
    decreases |b|
  {
    forall i | 0 <= i < |a + b| && (a + b)[i].Park? && !(a + b)[i].refused
      ensures i + 1 < |a + b| && (a + b)[i + 1] == Yield((a + b)[i].t)
    {
      if i < |a| { assert a[i] == (a + b)[i]; } else { assert b[i - |a|] == (a + b)[i]; }
    }
    ArmedAppended(a, b);
  }

  lemma {:induction false} ArmedAppended(a: seq<Step>, b: seq<Step>)
    requires Armed(a) == {}
    ensures Armed(a + b) == Armed(b) && Parks(a + b) == Parks(a) + Parks(b)
    decreases |b|
  {
    if b == [] {
      assert a + b == a;
    } else {
      var n := |b| - 1;
      ArmedAppended(a, b[..n]);
      assert (a + b)[..|a + b| - 1] == a + b[..n];
    }
  }

  lemma TurnFacts(t: nat, fd: nat, e: Event, timeout: bool, a: Attempt)
    requires a.WouldBlock?
    ensures var steps := Turn(t, fd, e, timeout, a);
      ParksThenYields(steps) && Armed(steps) == {} && Parks(steps) == 1
  {
    var steps := Turn(t, fd, e, timeout, a);
    assert steps == (if timeout then [AddTimer(t, a.timer, a.timer)] else []) + [Park(t, fd, e, a.refused)]
      + (if a.refused then [] else [Yield(t)]) + (if timeout then [CancelTimer(ThreadAfter(t, a), a.timer)] else []);
    if timeout {
      assert steps[..|steps| - 1] == [AddTimer(t, a.timer, a.timer), Park(t, fd, e, a.refused)]
          + (if a.refused then [] else [Yield(t)]);
    }
    hide Turn;
    assert Armed([]) == {} && Parks([]) == 0;
    var s1 := if timeout then [AddTimer(t, a.timer, a.timer)] else [];
    assert timeout ==> s1[..0] == [];
    assert Armed(s1) == (if timeout then {a.timer} else {}) && Parks(s1) == 0;
    var s2 := s1 + [Park(t, fd, e, a.refused)];
    assert s2[..|s2| - 1] == s1;
    assert Armed(s2) == Armed(s1) && Parks(s2) == 1;
    var s3 := if a.refused then s2 else s2 + [Yield(t)];
    assert !a.refused ==> s3[..|s3| - 1] == s2;
    assert Armed(s3) == Armed(s2) && Parks(s3) == 1;
    assert timeout ==> steps[..|steps| - 1] == s3;
    assert !timeout ==> steps == s3;
  }

  /** How many turns of a run park: the calls that would block, up to the answer that ends do_io. */
  function Blocked(world: seq<Attempt>): nat {
    if world == [] then 0
    else if Retries(world[0]) then (if world[0].WouldBlock? then 1 else 0) + Blocked(world[1..])
    else if world[0].WouldBlock? then 1 else 0
  }

  /** An answer after which do_io tries again. */
  predicate Retries(a: Attempt) {
    a.Interrupted? || (a.WouldBlock? && !a.refused && !a.timedOut)
  }

  /** The steps of do_io keep the discipline the runtime's safety rests on: it yields right after a
      successful park. It disarms every timer it arms, and parks once for every call that would block. */
  lemma {:induction false} DoIoIsDisciplined(t: nat, fd: nat, e: Event, timeout: bool, world: seq<Attempt>)
    ensures var steps := Turns(t, fd, e, timeout, world).0;
      ParksThenYields(steps) && Armed(steps) == {} && Parks(steps) == Blocked(world)
    decreases |world|
  {
    if world != [] {
      var next := ThreadAfter(t, world[0]);
      DoIoIsDisciplined(next, fd, e, timeout, world[1..]);
      if world[0].WouldBlock? {
        TurnFacts(t, fd, e, timeout, world[0]);
        hide Turn, Armed, Parks, ParksThenYields;
        Appended(Turn(t, fd, e, timeout, world[0]), Turns(next, fd, e, timeout, world[1..]).0);
      }
    }
  }

  /** The first answer that is not to be tried again decides the outcome. */
  predicate Decides(world: seq<Attempt>, k: nat) {
    k < |world| && !Retries(world[k]) && forall i :: 0 <= i < k ==> Retries(world[i])
  }

  lemma {:induction false} DoIoOutcome(t: nat, fd: nat, e: Event, timeout: bool, world: seq<Attempt>, k: nat)
    requires Decides(world, k)
    ensures Turns(t, fd, e, timeout, world).1 ==
      if world[k].Answered? then Value(world[k].n) else if world[k].refused then NotAdded else TimedOut
    decreases k
  {
    hide Turn;
    if k > 0 {
      assert forall i :: 0 <= i < k - 1 ==> world[1..][i] == world[i + 1];
      DoIoOutcome(ThreadAfter(t, world[0]), fd, e, timeout, world[1..], k - 1);
    }
  }

  lemma {:induction false} DoIoGoesOn(t: nat, fd: nat, e: Event, timeout: bool, world: seq<Attempt>)
    ensures Turns(t, fd, e, timeout, world).1 == GoingOn <==> forall i :: 0 <= i < |world| ==> Retries(world[i])
    decreases |world|
  {
    hide Turn;
    if world != [] {
      DoIoGoesOn(ThreadAfter(t, world[0]), fd, e, timeout, world[1..]);
      assert forall i :: 0 < i < |world| ==> world[i] == world[1..][i - 1];
    }
  }
}
