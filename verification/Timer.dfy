/** Timer and TimerManager over heap objects, each operation proved to be one step of the machine. */
module Timers {
  import opened Wrappers
  import TS = TimerSpec
  import TP = TimerProperties

  class Timer {
    const addr: nat
    const recurring: bool
    var ms: nat
    var next: nat
    var cb: Option<TS.Callback>

    constructor (addr: nat, ms: nat, cb: TS.Callback, recurring: bool, now: nat)
      ensures this.addr == addr && this.recurring == recurring && this.ms == ms
      ensures this.next == now + ms && this.cb == Some(cb)
    {
      this.addr := addr;
      this.recurring := recurring;
      this.ms := ms;
      this.cb := Some(cb);
      this.next := now + ms;
    }

    function Key(): TS.Key
      reads this
    {
      TS.Key(next, addr)
    }

    function Rec(): TS.TimerRec
      reads this
    {
      TS.TimerRec(next, ms, recurring, cb)
    }
  }

  function Ids(ts: seq<Timer>): (ids: seq<nat>)
    ensures |ids| == |ts| && forall i :: 0 <= i < |ts| ==> ids[i] == ts[i].addr
  {
    seq(|ts|, i requires 0 <= i < |ts| => ts[i].addr)
  }

  class TimerManager {
    var timers: seq<Timer>
    var tickled: bool
    var previous: nat
    /** How often onTimerInsertedAtFront ran. */
    var notifications: nat

    /** Every timer ever added, by address. */
    ghost var all: map<nat, Timer>

    constructor (now: nat)
      ensures Valid() && all == map[] && Model() == TS.State(map[], [], false, now)
    {
      timers := [];
      tickled := false;
      previous := now;
      notifications := 0;
      all := map[];
    }

    ghost function Recs(): (r: TS.Recs)
      reads this`all, all.Values
      ensures r.Keys == all.Keys
    {
      map a | a in all :: all[a].Rec()
    }

    ghost function Model(): TS.State
      reads this, all.Values
    {
      TS.State(Recs(), Ids(timers), tickled, previous)
    }

    /** `all` is right about addresses, and `timers` are among them. */
    ghost predicate Linked()
      reads this`all, this`timers, all.Values
    {
      && (forall a :: a in all ==> all[a].addr == a)
      && (forall i :: 0 <= i < |timers| ==> Mine(timers[i]))
    }

    ghost predicate Mine(t: Timer)
      reads this`all
    {
      t.addr in all && all[t.addr] == t
    }

    ghost predicate Valid()
      reads this, all.Values
    {
      Linked() && TS.Inv(Model())
    }

    /** std::set::lower_bound. */
    method LowerBound(k: TS.Key) returns (p: nat)
      requires Linked()
      ensures TS.Known(Recs(), Ids(timers)) && p == TS.LowerBound(Recs(), Ids(timers), k)
    {
      p := 0;
      ghost var recs, ids := Recs(), Ids(timers);
      assert ids[0..] == ids;
      while p < |timers| && TS.Less(timers[p].Key(), k)
        invariant p <= |timers| && TS.Known(recs, ids) && TS.Known(recs, ids[p..])
        invariant TS.LowerBound(recs, ids, k) == p + TS.LowerBound(recs, ids[p..], k)
      {
        assert Mine(timers[p]) && ids[p..][1..] == ids[p + 1..];
        p := p + 1;
      }
      if p < |timers| { assert Mine(timers[p]); }
    }

    /** std::set::insert of a timer that is not in the set. */
    method InsertTimer(t: Timer) returns (p: nat)
      requires Linked() && Mine(t)
      modifies this`timers
      ensures Linked() && Recs() == old(Recs())
      ensures TS.Known(Recs(), Ids(old(timers))) && Ids(timers) == TS.Insert(Recs(), Ids(old(timers)), t.addr)
      ensures p < |timers| && timers[p] == t && p == TS.LowerBound(Recs(), Ids(old(timers)), t.Key())
    {
      hide TS.LowerBound;
      p := LowerBound(t.Key());
      timers := timers[..p] + [t] + timers[p..];
    }

    /** std::set::find, then erase what was found. */
    method EraseTimer(t: Timer) returns (found: bool)
      requires Linked() && Mine(t)
      modifies this`timers
      ensures Linked() && Recs() == old(Recs()) && TS.Known(Recs(), Ids(old(timers)))
      ensures var f := TS.Find(Recs(), Ids(old(timers)), t.addr);
        found == f.Some? && Ids(timers) == if found then TS.Erase(Ids(old(timers)), f.value) else Ids(old(timers))
    {
      var p := LowerBound(t.Key());
      found := p < |timers| && !TS.Less(t.Key(), timers[p].Key());
      if p < |timers| { assert Mine(timers[p]); }
      if found {
        timers := timers[..p] + timers[p + 1..];
        assert Ids(timers) == TS.Erase(Ids(old(timers)), p);
      }
    }

    /** addTimer with the lock held: insert, and notify when it came first and no one was told yet. */
    method AddLocked(t: Timer)
      requires Linked() && Mine(t)
      modifies this`timers, this`tickled, this`notifications
      ensures Linked() && Recs() == old(Recs()) && TS.Known(Recs(), Ids(old(timers)))
      ensures var s := TS.State(Recs(), Ids(old(timers)), old(tickled), previous);
        && Model() == TS.AddToSet(s, t.addr).0
        && notifications == old(notifications) + if TS.AddToSet(s, t.addr).1 then 1 else 0
    {
      var p := InsertTimer(t);
      var atFront := p == 0 && !tickled;
      if atFront {
        tickled := true;
        notifications := notifications + 1;
      }
      ghost var order := TS.Insert(Recs(), Ids(old(timers)), t.addr);
      assert order[0] == t.addr <==> p == 0 by {
        if p > 0 { FirstDiffers(Recs(), Ids(old(timers)), t.addr); }
      }
    }

    /** The address of a new timer is not that of any other. */
    method AddTimer(addr: nat, ms: nat, cb: TS.Callback, recurring: bool, now: nat) returns (t: Timer)
      requires Valid() && addr !in all
      modifies this
      ensures Valid() && fresh(t) && all == old(all)[addr := t]
      ensures var (s, n) := TS.AddTimer(old(Model()), addr, ms, recurring, cb, now);
        Model() == s && notifications == old(notifications) + if n then 1 else 0
    {
      hide TS.Insert, TS.Inv, TS.AddToSet;
      TP.AddTimerKeeps(Model(), addr, ms, recurring, cb, now);
      t := new Timer(addr, ms, cb, recurring, now);
      all := all[addr := t];
      assert Recs() == old(Recs())[addr := TS.TimerRec(now + ms, ms, recurring, Some(cb))];
      ghost var s1 := old(Model()).(recs := Recs());
      assert Ids(timers) == old(Ids(timers));
      AddLocked(t);
      assert Model() == TS.AddToSet(s1, addr).0;
    }

    method Cancel(t: Timer) returns (ok: bool)
      requires Valid() && Mine(t)
      modifies this`timers, t
      ensures Valid()
      ensures (Model(), ok) == TS.Cancel(old(Model()), t.addr)
    {
      hide TS.LowerBound, TS.Erase, TS.Inv;
      TP.CancelKeeps(Model(), t.addr);
      if t.cb.None? { return false; }
      t.cb := None;
      assert Recs() == old(Recs())[t.addr := old(t.Rec()).(cb := None)];
      var found := EraseTimer(t);
      ok := true;
      assert Model().order == TS.Cancel(old(Model()), t.addr).0.order;
    }

    /** The field update of `refresh`. */
    method Delay(t: Timer, next: nat)
      requires Linked() && Mine(t)
      modifies t
      ensures Linked() && t.Rec() == old(t.Rec()).(next := next) && Recs() == old(Recs())[t.addr := t.Rec()]
    {
      t.next := next;
    }

    method Refresh(t: Timer, now: nat) returns (ok: bool)
      requires Valid() && Mine(t)
      modifies this`timers, t
      ensures Valid()
      ensures (Model(), ok) == TS.Refresh(old(Model()), t.addr, now)
    {
      hide TS.LowerBound, TS.Erase, TS.Insert, TS.Inv, TS.Known, TS.Sorted, Linked;
      TP.RefreshKeeps(Model(), t.addr, now);
      if t.cb.None? { return false; }
      var found := EraseTimer(t);
      if !found { return false; }
      Delay(t, now + t.ms);
      ghost var s1 := TS.Withdrawn(old(Model()), t.addr, TS.Find(old(Recs()), old(Ids(timers)), t.addr).value, t.Rec());
      assert Recs() == s1.recs && Ids(timers) == s1.order;
      var p := InsertTimer(t);
      ok := true;
      assert Model() == TS.Refresh(old(Model()), t.addr, now).0;
    }

    /** The field updates of `reset`, made while the timer is out of the set. */
    method Retime(t: Timer, ms: nat, fromNow: bool, now: nat)
      requires Mine(t) && (forall a :: a in all ==> all[a].addr == a) && t.ms <= t.next
      modifies t
      ensures t.Rec() == TS.Retimed(old(t.Rec()), ms, fromNow, now)
      ensures Recs() == old(Recs())[t.addr := t.Rec()]
    {
      var start := if fromNow then now else t.next - t.ms;
      t.ms := ms;
      t.next := start + t.ms;
    }

    /** The end of `reset`: the timer has left the set, and goes back with its new period. */
    method PutBack(t: Timer, ms: nat, fromNow: bool, now: nat)
      requires Linked() && Mine(t) && t.ms <= t.next
      modifies this`timers, this`tickled, this`notifications, t
      ensures Linked()
      ensures var s := old(Model());
        var s1 := s.(recs := s.recs[t.addr := TS.Retimed(old(t.Rec()), ms, fromNow, now)]);
        && TS.Known(s1.recs, s1.order) && t.addr in s1.recs && Model() == TS.AddToSet(s1, t.addr).0
        && notifications == old(notifications) + if TS.AddToSet(s1, t.addr).1 then 1 else 0
    {
      hide TS.LowerBound, TS.Insert, TS.AddToSet, TS.Known, TS.Retimed;
      ghost var s := Model();
      Retime(t, ms, fromNow, now);
      assert Model() == s.(recs := s.recs[t.addr := t.Rec()]);
      AddLocked(t);
    }

    /** `reset` of a pending timer that has something to change. */
    method Requeue(t: Timer, ms: nat, fromNow: bool, now: nat) returns (ok: bool)
      requires Valid() && Mine(t) && t.cb.Some? && !(ms == t.ms && !fromNow)
      modifies this`timers, this`tickled, this`notifications, t
      ensures Valid()
      ensures var (s, r, n) := TS.Reset(old(Model()), t.addr, ms, fromNow, now);
        Model() == s && ok == r && notifications == old(notifications) + if n then 1 else 0
    {
      TP.PeriodBelowDeadline(Model(), t.addr);
      hide TS.LowerBound, TS.Erase, TS.Insert, TS.Inv, TS.AddToSet, TS.Find, TS.Known, TS.Retimed, TS.Sorted;
      TP.ResetKeeps(Model(), t.addr, ms, fromNow, now);
      hide Linked;
      ok := EraseTimer(t);
      if ok { PutBack(t, ms, fromNow, now); }
    }

    method Reset(t: Timer, ms: nat, fromNow: bool, now: nat) returns (ok: bool)
      requires Valid() && Mine(t)
      modifies this`timers, this`tickled, this`notifications, t
      ensures Valid()
      ensures var (s, r, n) := TS.Reset(old(Model()), t.addr, ms, fromNow, now);
        Model() == s && ok == r && notifications == old(notifications) + if n then 1 else 0
    {
      hide Linked, TS.Inv, TS.Find, TS.AddToSet, TS.Known, TS.Sorted;
      if ms == t.ms && !fromNow { return true; }
      if t.cb.None? { return false; }
      ok := Requeue(t, ms, fromNow, now);
    }

    /** None is ~0ull. */
    method GetNextTimer(now: nat) returns (wait: Option<nat>)
      requires Valid()
      modifies this`tickled
      ensures Valid()
      ensures (Model(), wait) == TS.NextTimer(old(Model()), now)
    {
      tickled := false;
      assert Recs() == old(Recs());
      if timers == [] { return None; }
      var next := timers[0];
      assert Mine(next);
      wait := Some(if now >= next.next then 0 else next.next - now);
    }

    method HasTimer() returns (b: bool)
      requires Valid()
      ensures b <==> exists a :: a in all && all[a].cb.Some?
    {
      b := timers != [];
      if b {
        assert Mine(timers[0]) && timers[0].addr in Model().order;
      }
    }

    /** The rollover test, which also records `now`. */
    method DetectClockRollover(now: nat) returns (b: bool)
      modifies this`previous
      ensures b == TS.RollsOver(old(previous), now) && previous == now
    {
      b := TS.RollsOver(previous, now);
      previous := now;
    }

    /** lower_bound of the probe, then past the timers due exactly at `now`. */
    method DueCount(now: nat, probe: nat) returns (q: nat)
      requires Linked()
      ensures TS.Known(Recs(), Ids(timers)) && q == TS.DueCount(Recs(), Ids(timers), now, probe)
    {
      q := LowerBound(TS.Key(now, probe));
      ghost var recs, ids, p := Recs(), Ids(timers), q;
      if q < |timers| { assert Mine(timers[q]); }
      while q < |timers| && timers[q].next == now
        invariant q <= |timers| && TS.SkipDue(recs, ids, p, now) == TS.SkipDue(recs, ids, q, now)
      {
        assert Mine(timers[q]);
        q := q + 1;
      }
      if q < |timers| { assert Mine(timers[q]); }
    }

    /** Hand out one expired timer's callback, then re-arm or disarm it. */
    method FireOne(t: Timer, now: nat) returns (cb: TS.Callback)
      requires Linked() && Mine(t) && t.cb.Some?
      modifies this`timers, t
      ensures Linked() && Some(cb) == old(t.cb)
      ensures Recs() == old(Recs())[t.addr := TS.Fired(old(t.Rec()), now)]
      ensures TS.Known(Recs(), Ids(old(timers)))
      ensures Ids(timers) == if t.recurring then TS.Insert(Recs(), Ids(old(timers)), t.addr) else Ids(old(timers))
    {
      hide TS.LowerBound, TS.Insert;
      cb := t.cb.value;
      if t.recurring {
        t.next := now + t.ms;
        assert Recs() == old(Recs())[t.addr := TS.Fired(old(t.Rec()), now)];
        var p := InsertTimer(t);
      } else {
        t.cb := None;
        assert Recs() == old(Recs())[t.addr := TS.Fired(old(t.Rec()), now)];
      }
      AllKnown(Recs(), timers);
    }

    lemma AllKnown(recs: TS.Recs, ts: seq<Timer>)
      requires Linked() && recs.Keys == all.Keys
      ensures TS.Known(recs, Ids(timers))
    {
      forall i | 0 <= i < |timers| ensures Ids(timers)[i] in recs { assert Mine(timers[i]); }
    }

    /** The loop over the expired timers. */
    method FireLoop(expired: seq<Timer>, now: nat) returns (cbs: seq<TS.Callback>)
      requires Linked() && (forall i :: 0 <= i < |expired| ==> Mine(expired[i]))
      requires TP.Firing(Recs(), Ids(timers), Ids(expired))
      modifies this`timers, expired
      ensures Linked()
      ensures (Recs(), Ids(timers), cbs) == TS.Fire(old(Recs()), old(Ids(timers)), Ids(expired), now)
    {
      hide TS.Fire, TS.Insert, TS.LowerBound, TS.Sorted, TP.Firing, TS.Known, TS.Fired;
      cbs := [];
      var i := 0;
      ghost var ids := Ids(expired);
      ghost var r0, o0 := Recs(), Ids(timers);
      assert ids[0..] == ids;
      FiringCalls(r0, o0, ids, now);
      while i < |expired|
        invariant 0 <= i <= |expired| && Linked()
        invariant TP.Firing(Recs(), Ids(timers), ids[i..])
        invariant FireFrom(r0, o0, ids, now, Recs(), Ids(timers), ids[i..], cbs)
      {
        ghost var r, o := Recs(), Ids(timers);
        var t := expired[i];
        assert Mine(t) && ids[i..][0] == t.addr && ids[i..][1..] == ids[i + 1..];
        FiringHead(r, o, ids[i..], now);
        assert t.Rec() == r[t.addr];
        var cb := FireOne(t, now);
        FireNext(r0, o0, ids, now, r, o, ids[i..], cbs);
        cbs := cbs + [cb];
        i := i + 1;
      }
      FireEnds(r0, o0, ids, now, Recs(), Ids(timers), ids[i..], cbs);
    }

    /** Take the first `q` timers out of the set. */
    method TakeFirst(q: nat) returns (expired: seq<Timer>)
      requires Linked() && q <= |timers|
      modifies this`timers
      ensures Linked() && Recs() == old(Recs())
      ensures Ids(expired) == Ids(old(timers))[..q] && Ids(timers) == Ids(old(timers))[q..]
      ensures forall i :: 0 <= i < |expired| ==> Mine(expired[i])
      ensures expired == old(timers)[..q]
    {
      expired := timers[..q];
      assert forall i :: 0 <= i < q ==> Mine(timers[i]);
      timers := timers[q..];
    }

    /** Take the first `q` timers out and fire them. */
    method FireFirst(q: nat, now: nat) returns (cbs: seq<TS.Callback>)
      requires Linked() && q <= |timers|
      requires TP.Firing(Recs(), Ids(timers)[q..], Ids(timers)[..q])
      modifies this`timers, timers
      ensures Linked() && TS.Known(old(Recs()), old(Ids(timers))[q..])
      ensures (Recs(), Ids(timers), cbs) == TS.Fire(old(Recs()), old(Ids(timers))[q..], old(Ids(timers))[..q], now)
    {
      hide TS.Fire, TS.Sorted;
      var expired := TakeFirst(q);
      cbs := FireLoop(expired, now);
    }

    /** Fire every timer on a rollover, and the due ones otherwise; `s` is the state before the call of
        listExpiredCb. */
    method FireSelected(ghost s: TS.State, rollover: bool, now: nat, probe: nat) returns (cbs: seq<TS.Callback>)
      requires Linked() && TS.Inv(s) && Model() == s.(previous := now)
      requires s.order != [] && s.order[0] in s.recs
      requires rollover == TS.RollsOver(s.previous, now) && (rollover || s.recs[s.order[0]].next <= now)
      modifies this`timers, timers
      ensures Linked() && (Model(), cbs) == TS.Expire(s, now, probe)
    {
      hide TS.Expire, TS.Inv, TS.Fire, TS.LowerBound, TS.SkipDue, TS.DueCount, TS.Known, TS.Sorted, TP.Firing;
      hide TS.RollsOver;
      assert Recs() == s.recs && Ids(timers) == s.order;
      var q := |timers|;
      AllKnown(Recs(), timers);
      if !rollover { q := DueCount(now, probe); }
      ExpireFires(s, now, probe, q);
      cbs := FireFirst(q, now);
    }

    method ListExpired(now: nat, probe: nat) returns (cbs: seq<TS.Callback>)
      requires Valid()
      modifies this`timers, this`previous, timers
      ensures Valid()
      ensures (Model(), cbs) == TS.Expire(old(Model()), now, probe)
    {
      ghost var s := Model();
      TP.ExpireKeeps(s, now, probe);
      hide TS.Expire, TS.Inv, TS.RollsOver;
      ExpireOfNone(s, now, probe);
      if timers == [] { return []; }
      assert Mine(timers[0]);
      var due := timers[0].next <= now;
      var rollover := DetectClockRollover(now);
      assert Recs() == s.recs;
      if !rollover && !due { return []; }
      cbs := FireSelected(s, rollover, now, probe);
    }
  }

  lemma ExpireOfNone(s: TS.State, now: nat, probe: nat)
    requires TS.Inv(s)
    ensures s.order == [] ==> TS.Expire(s, now, probe) == (s, [])
    ensures s.order != [] ==> s.order[0] in s.recs
    ensures s.order != [] && !TS.RollsOver(s.previous, now) && s.recs[s.order[0]].next > now
      ==> TS.Expire(s, now, probe) == (s.(previous := now), [])
  {
    hide TS.Fire, TS.LowerBound, TS.SkipDue, TS.DueCount;
  }

  lemma ExpireFires(s: TS.State, now: nat, probe: nat, q: nat)
    requires TS.Inv(s) && s.order != [] && s.order[0] in s.recs && TS.Known(s.recs, s.order)
    requires TS.RollsOver(s.previous, now) || s.recs[s.order[0]].next <= now
    requires q == if TS.RollsOver(s.previous, now) then |s.order| else TS.DueCount(s.recs, s.order, now, probe)
    ensures q <= |s.order| && TP.Firing(s.recs, s.order[q..], s.order[..q]) && TS.Known(s.recs, s.order[q..])
    ensures var (r, o, cbs) := TS.Fire(s.recs, s.order[q..], s.order[..q], now);
      TS.Expire(s, now, probe) == (TS.State(r, o, s.tickled, now), cbs)
  {
    TP.FiringStarts(s, q);
    hide TS.Fire, TS.LowerBound, TS.SkipDue, TS.DueCount;
  }

  /** Firing the whole list from the start ends like firing `rest` from here after `cbs`. */
  ghost predicate FireFrom(r0: TS.Recs, o0: seq<nat>, ids: seq<nat>, now: nat, r: TS.Recs, o: seq<nat>,
          rest: seq<nat>, cbs: seq<TS.Callback>)
  {
    && TP.Firing(r0, o0, ids) && TP.Firing(r, o, rest)
    && var (r1, o1, more) := TS.Fire(r, o, rest, now);
       TS.Fire(r0, o0, ids, now) == (r1, o1, cbs + more)
  }

  lemma FiringCalls(r0: TS.Recs, o0: seq<nat>, ids: seq<nat>, now: nat)
    requires TP.Firing(r0, o0, ids)
    ensures TS.Known(r0, o0)
    ensures FireFrom(r0, o0, ids, now, r0, o0, ids, [])
  {
    assert [] + TS.Fire(r0, o0, ids, now).2 == TS.Fire(r0, o0, ids, now).2;
  }

  lemma FiringHead(r: TS.Recs, o: seq<nat>, rest: seq<nat>, now: nat)
    requires TP.Firing(r, o, rest) && rest != []
    ensures TS.Known(r, o) && rest[0] in r && r[rest[0]].cb.Some?
    ensures var r' := r[rest[0] := TS.Fired(r[rest[0]], now)];
      TS.Known(r', o) && TP.Firing(r', if r[rest[0]].recurring then TS.Insert(r', o, rest[0]) else o, rest[1..])
  {
    TP.FireStep(r, o, rest, now);
  }

  lemma FireNext(r0: TS.Recs, o0: seq<nat>, ids: seq<nat>, now: nat, r: TS.Recs, o: seq<nat>, rest: seq<nat>,
          cbs: seq<TS.Callback>)
    requires FireFrom(r0, o0, ids, now, r, o, rest, cbs) && rest != []
    ensures rest[0] in r && r[rest[0]].cb.Some?
    ensures var r' := r[rest[0] := TS.Fired(r[rest[0]], now)];
      && TS.Known(r', o)
      && FireFrom(r0, o0, ids, now, r', if r[rest[0]].recurring then TS.Insert(r', o, rest[0])
          else o, rest[1..], cbs + [r[rest[0]].cb.value])
  {
    hide TS.Fire, TS.Insert, TP.Firing, TS.Known, TS.Fired;
    FiringHead(r, o, rest, now);
    TP.FireUnfolds(r, o, rest, now);
    var r' := r[rest[0] := TS.Fired(r[rest[0]], now)];
    var o' := if r[rest[0]].recurring then TS.Insert(r', o, rest[0]) else o;
    TP.FireCallable(r', o', rest[1..]);
    var more := TS.Fire(r', o', rest[1..], now).2;
    assert cbs + ([r[rest[0]].cb.value] + more) == cbs + [r[rest[0]].cb.value] + more;
  }

  lemma FireEnds(r0: TS.Recs, o0: seq<nat>, ids: seq<nat>, now: nat, r: TS.Recs, o: seq<nat>, rest: seq<nat>,
          cbs: seq<TS.Callback>)
    requires FireFrom(r0, o0, ids, now, r, o, rest, cbs) && rest == []
    ensures TP.Firing(r0, o0, ids) && TS.Known(r0, o0)
    ensures TS.Fire(r0, o0, ids, now) == (r, o, cbs)
  {
    assert cbs + [] == cbs;
  }

  lemma FirstDiffers(recs: TS.Recs, order: seq<nat>, id: nat)
    requires TS.Known(recs, order) && id in recs && TS.LowerBound(recs, order, TS.KeyOf(recs, id)) > 0
    ensures order[0] != id
  {}
}
