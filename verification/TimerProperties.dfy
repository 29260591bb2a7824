/** What every operation of the timer machine keeps, what expiry does exactly, and that no wake-up is lost. */
module TimerProperties {
  import opened Wrappers
  import opened TimerSpec

  // ---------- the invariant ----------

  lemma AddToSetKeeps(s: State, id: nat)
    requires Known(s.recs, s.order) && Sorted(s.recs, s.order) && id in s.recs && id !in s.order
    requires s.recs[id].cb.Some?
    requires forall x :: x in s.recs && x != id ==> (s.recs[x].cb.Some? <==> x in s.order)
    requires forall x :: x in s.recs ==> s.recs[x].ms <= s.recs[x].next
    ensures Inv(AddToSet(s, id).0)
  {
    InsertSorts(s.recs, s.order, id);
  }

  lemma AddTimerKeeps(s: State, id: nat, ms: nat, recurring: bool, cb: Callback, now: nat)
    requires Inv(s) && id !in s.recs
    ensures Inv(AddTimer(s, id, ms, recurring, cb, now).0)
  {
    var recs := s.recs[id := TimerRec(now + ms, ms, recurring, Some(cb))];
    UpdateOutside(s.recs, s.order, id, recs[id]);
    AddToSetKeeps(s.(recs := recs), id);
  }

  /** Taking a timer out of the set and giving it a new record leaves a sorted set without it. */
  lemma TakeOut(s: State, id: nat, t: TimerRec)
    requires Inv(s) && id in s.recs && s.recs[id].cb.Some?
    ensures Find(s.recs, s.order, id).Some? && s.order[Find(s.recs, s.order, id).value] == id
    ensures var w := Withdrawn(s, id, Find(s.recs, s.order, id).value, t);
      && Known(w.recs, w.order) && Sorted(w.recs, w.order) && id !in w.order
      && (forall x :: x in w.order <==> x in s.order && x != id)
  {
    FindFinds(s.recs, s.order, id);
    var p := Find(s.recs, s.order, id).value;
    EraseSorts(s.recs, s.order, p);
    UpdateOutside(s.recs, Erase(s.order, p), id, t);
  }

  /** Cancelling takes exactly the timer out, and succeeds exactly when it was pending. */
  lemma CancelKeeps(s: State, id: nat)
    requires Inv(s) && id in s.recs
    ensures var (s', ok) := Cancel(s, id);
      && Inv(s') && ok == s.recs[id].cb.Some?
      && (forall x :: x in s'.order <==> x in s.order && x != id)
  {
    if s.recs[id].cb.Some? {
      TakeOut(s, id, s.recs[id].(cb := None));
      CancelKeyUnchanged(s.recs, s.order, id);
    }
  }

  /** `cancel` clears the callback before it searches; the search looks at keys only. */
  lemma {:induction false} CancelKeyUnchanged(recs: Recs, order: seq<nat>, id: nat)
    requires Known(recs, order) && id in recs
    ensures Known(recs[id := recs[id].(cb := None)], order)
    ensures Find(recs[id := recs[id].(cb := None)], order, id) == Find(recs, order, id)
  {
    SameKeys(recs, recs[id := recs[id].(cb := None)], order, KeyOf(recs, id));
  }

  lemma {:induction false} SameKeys(a: Recs, b: Recs, order: seq<nat>, k: Key)
    requires Known(a, order) && Known(b, order) && a.Keys == b.Keys
    requires forall x :: x in a ==> KeyOf(a, x) == KeyOf(b, x)
    ensures LowerBound(a, order, k) == LowerBound(b, order, k)
    decreases |order|
  {
    if order != [] && Less(KeyOf(a, order[0]), k) {
      assert forall i :: 0 <= i < |order| - 1 ==> order[1..][i] == order[i + 1];
      SameKeys(a, b, order[1..], k);
    }
  }

  /** Taking a pending timer out, changing it and putting it back keeps the invariant. */
  lemma Rearmed(s: State, id: nat, t: TimerRec, tickled: bool)
    requires Inv(s) && id in s.recs && s.recs[id].cb.Some? && t.cb.Some? && t.ms <= t.next
    ensures Find(s.recs, s.order, id).Some?
    ensures var w := Withdrawn(s, id, Find(s.recs, s.order, id).value, t);
      && Known(w.recs, w.order) && id in w.recs
      && Inv(w.(order := Insert(w.recs, w.order, id), tickled := tickled))
      && (forall x :: x in Insert(w.recs, w.order, id) <==> x in s.order)
  {
    TakeOut(s, id, t);
    hide LowerBound, Insert, Erase, Find, Sorted, Known;
    var w := Withdrawn(s, id, Find(s.recs, s.order, id).value, t);
    InsertSorts(w.recs, w.order, id);
    forall x | x in w.recs ensures w.recs[x].cb.Some? <==> x in Insert(w.recs, w.order, id) {
      if x != id { assert w.recs[x] == s.recs[x]; }
    }
  }

  lemma RefreshKeeps(s: State, id: nat, now: nat)
    requires Inv(s) && id in s.recs
    ensures Inv(Refresh(s, id, now).0) && Refresh(s, id, now).1 == s.recs[id].cb.Some?
    ensures forall x :: x in Refresh(s, id, now).0.order <==> x in s.order
  {
    assert Known(s.recs, s.order);
    hide Insert, Withdrawn, Find, Sorted, Known, Inv, Refresh;
    if s.recs[id].cb.Some? {
      Rearmed(s, id, s.recs[id].(next := now + s.recs[id].ms), s.tickled);
      RefreshUnfolds(s, id, now);
    } else {
      RefreshOfIdle(s, id, now);
    }
  }

  lemma RefreshOfIdle(s: State, id: nat, now: nat)
    requires Inv(s) && id in s.recs && s.recs[id].cb.None?
    ensures Refresh(s, id, now) == (s, false)
  {}

  lemma RefreshUnfolds(s: State, id: nat, now: nat)
    requires Inv(s) && id in s.recs && s.recs[id].cb.Some? && Known(s.recs, s.order) && Find(s.recs, s.order, id).Some?
    ensures var w := Withdrawn(s, id, Find(s.recs, s.order, id).value, s.recs[id].(next := now + s.recs[id].ms));
      id in w.recs && Known(w.recs, w.order)
          && Refresh(s, id, now) == (w.(order := Insert(w.recs, w.order, id), tickled := s.tickled), true)
  {
    EraseSorts(s.recs, s.order, Find(s.recs, s.order, id).value);
    hide Inv, Insert, Find, Sorted, Erase;
  }

  lemma RefreshRecs(s: State, id: nat, now: nat)
    requires Inv(s) && id in s.recs
    ensures var s' := Refresh(s, id, now).0;
      s'.tickled == s.tickled
          && s'.recs == if s.recs[id].cb.Some? then s.recs[id := s.recs[id].(next := now + s.recs[id].ms)] else s.recs
  {
    assert Known(s.recs, s.order);
    hide Insert, Find, Sorted, Known, Inv, Refresh;
    if s.recs[id].cb.Some? {
      TakeOut(s, id, s.recs[id]);
      RefreshUnfolds(s, id, now);
    } else {
      RefreshOfIdle(s, id, now);
    }
  }

  /** reset succeeds exactly when it has nothing to change or the timer is pending. */
  lemma ResetKeeps(s: State, id: nat, ms: nat, fromNow: bool, now: nat)
    requires Inv(s) && id in s.recs
    ensures Inv(Reset(s, id, ms, fromNow, now).0)
    ensures Reset(s, id, ms, fromNow, now).1 <==> (ms == s.recs[id].ms && !fromNow) || s.recs[id].cb.Some?
    ensures forall x :: x in Reset(s, id, ms, fromNow, now).0.order <==> x in s.order
  {
    var t := s.recs[id];
    if !(ms == t.ms && !fromNow) && t.cb.Some? {
      PeriodBelowDeadline(s, id);
      hide Insert, Withdrawn, Find, Sorted, Known, Inv;
      var t' := Retimed(t, ms, fromNow, now);
      Rearmed(s, id, t', false);
      Rearmed(s, id, t', true);
    }
  }

  lemma PeriodBelowDeadline(s: State, id: nat)
    requires Inv(s) && id in s.recs
    ensures s.recs[id].ms <= s.recs[id].next
  {}

  // ---------- expiry ----------

  /** The set and the timers taken from it but not yet fired make up the timers with a callback. */
  ghost predicate Firing(recs: Recs, order: seq<nat>, expired: seq<nat>) {
    && Known(recs, order) && Sorted(recs, order)
    && (forall id :: id in expired ==> id in recs && id !in order)
    && (forall i, j :: 0 <= i < j < |expired| ==> expired[i] != expired[j])
    && (forall id :: id in recs ==> (recs[id].cb.Some? <==> id in order || id in expired))
    && (forall id :: id in recs ==> recs[id].ms <= recs[id].next)
  }

  lemma FireStep(recs: Recs, order: seq<nat>, expired: seq<nat>, now: nat)
    requires Firing(recs, order, expired) && expired != []
    ensures var id := expired[0]; var t := recs[id]; var recs' := recs[id := Fired(t, now)];
      && Known(recs', order)
      && Firing(recs', if t.recurring then Insert(recs', order, id) else order, expired[1..])
      && id !in expired[1..]
  {
    hide Sorted, Insert, LowerBound;
    var id := expired[0];
    var t := recs[id];
    var rest := expired[1..];
    assert forall i :: 0 <= i < |rest| ==> rest[i] == expired[i + 1];
    UpdateOutside(recs, order, id, Fired(t, now));
    assert forall x :: x in expired <==> x == id || x in rest;
    if t.recurring {
      InsertSorts(recs[id := Fired(t, now)], order, id);
    }
  }

  /** What firing does to the timers, the set and the callbacks handed out. */
  ghost predicate FiredAll(recs: Recs, order: seq<nat>, expired: seq<nat>, now: nat, r: Recs, o: seq<nat>,
          cbs: seq<Callback>)
    requires forall id :: id in expired ==> id in recs
  {
    && r.Keys == recs.Keys
    && |cbs| == |expired|
    && (forall i :: 0 <= i < |expired| ==> recs[expired[i]].cb == Some(cbs[i]))
    && (forall id :: id in recs ==> r[id] == if id in expired then Fired(recs[id], now) else recs[id])
    && (forall id :: id in o <==> id in order || (id in expired && recs[id].recurring))
  }

  lemma FiringApart(recs: Recs, order: seq<nat>, expired: seq<nat>)
    requires Firing(recs, order, expired) && expired != []
    ensures Known(recs, order) && Sorted(recs, order) && expired[0] !in order && expired[0] !in expired[1..]
  {
    assert expired[0] in expired;
  }

  /** Firing hands out each expired callback once, in order, re-arms the recurring timers at
      now + period and clears the others, and touches nothing else. */
  lemma {:induction false} FireEffect(recs: Recs, order: seq<nat>, expired: seq<nat>, now: nat)
    requires Firing(recs, order, expired)
    ensures var (r, o, cbs) := Fire(recs, order, expired, now);
      Firing(r, o, []) && FiredAll(recs, order, expired, now, r, o, cbs)
    decreases |expired|
  {
    if expired != [] {
      var id, rest := expired[0], expired[1..];
      var recs' := recs[id := Fired(recs[id], now)];
      FireStep(recs, order, expired, now);
      FireUnfolds(recs, order, expired, now);
      hide Fire, Insert, Firing, FiredAll, Fired;
      var order' := if recs[id].recurring then Insert(recs', order, id) else order;
      FireEffect(recs', order', rest, now);
      var (r, o, cbs) := Fire(recs', order', rest, now);
      assert id !in order && id !in rest && Known(recs, order) && Sorted(recs, order) by {
        FiringApart(recs, order, expired);
      }
      SetAfterOne(recs, order, id, now);
      FiredStep(recs, order, order', expired, now, r, o, cbs);
    } else {
      assert FiredAll(recs, order, expired, now, recs, order, []);
    }
  }

  /** Who is in the set after one timer has been handed out. */
  lemma SetAfterOne(recs: Recs, order: seq<nat>, id: nat, now: nat)
    requires Known(recs, order) && Sorted(recs, order) && id in recs && id !in order
    ensures var recs' := recs[id := Fired(recs[id], now)];
      && Known(recs', order)
      && (forall x :: x in (if recs[id].recurring then Insert(recs', order, id) else order) <==>
            x in order || (x == id && recs[id].recurring))
  {
    UpdateOutside(recs, order, id, Fired(recs[id], now));
    hide Insert, Fired;
    InsertSorts(recs[id := Fired(recs[id], now)], order, id);
  }

  /** One timer handed out, and then the rest. */
  lemma FiredStep(recs: Recs, order: seq<nat>, order': seq<nat>, expired: seq<nat>, now: nat, r: Recs, o: seq<nat>,
          cbs: seq<Callback>)
    requires expired != [] && (forall x :: x in expired ==> x in recs) && recs[expired[0]].cb.Some?
    requires expired[0] !in expired[1..]
    requires forall x :: x in order' <==> x in order || (x == expired[0] && recs[expired[0]].recurring)
    requires FiredAll(recs[expired[0] := Fired(recs[expired[0]], now)], order', expired[1..], now, r, o, cbs)
    ensures FiredAll(recs, order, expired, now, r, o, [recs[expired[0]].cb.value] + cbs)
  {
    hide Fired;
    var id, rest := expired[0], expired[1..];
    var all := [recs[id].cb.value] + cbs;
    assert forall x :: x in expired <==> x == id || x in rest;
    assert id in recs;
    forall i | 0 <= i < |expired| ensures recs[expired[i]].cb == Some(all[i]) {
      if i > 0 { assert expired[i] == rest[i - 1] && all[i] == cbs[i - 1]; }
    }
  }

  lemma FireCallable(recs: Recs, order: seq<nat>, expired: seq<nat>)
    requires Firing(recs, order, expired)
    ensures Known(recs, order) && (forall id :: id in expired ==> id in recs && recs[id].cb.Some?)
    ensures forall i, j :: 0 <= i < j < |expired| ==> expired[i] != expired[j]
  {}

  lemma FireUnfolds(recs: Recs, order: seq<nat>, expired: seq<nat>, now: nat)
    requires Firing(recs, order, expired) && expired != []
    requires var id := expired[0]; var recs' := recs[id := Fired(recs[id], now)];
      && Known(recs', order)
      && Firing(recs', if recs[id].recurring then Insert(recs', order, id) else order, expired[1..])
    ensures var id := expired[0]; var recs' := recs[id := Fired(recs[id], now)];
      var (r, o, cbs) := Fire(recs', if recs[id].recurring then Insert(recs', order, id) else order, expired[1..], now);
      Fire(recs, order, expired, now) == (r, o, [recs[id].cb.value] + cbs)
  {
    FireCallable(recs, order, expired);
    hide Sorted, Insert, LowerBound, Firing, Fired;
  }

  /** The timers of the set due by `now`, in the set's order. */
  function DueList(recs: Recs, order: seq<nat>, now: nat): (due: seq<nat>)
    requires Known(recs, order)
    ensures Known(recs, due)
    ensures forall id :: id in due <==> id in order && recs[id].next <= now
  {
    if order == [] then []
    else
      assert forall i :: 0 <= i < |order| - 1 ==> order[1..][i] == order[i + 1];
      (if recs[order[0]].next <= now then [order[0]] else []) + DueList(recs, order[1..], now)
  }

  lemma {:induction false} DueListIsPrefix(recs: Recs, order: seq<nat>, now: nat, q: nat)
    requires Known(recs, order) && q <= |order|
    requires forall i :: 0 <= i < |order| ==> (i < q <==> recs[order[i]].next <= now)
    ensures DueList(recs, order, now) == order[..q]
    decreases |order|
  {
    if order != [] {
      var rest := order[1..];
      assert forall i :: 0 <= i < |rest| ==> rest[i] == order[i + 1];
      if q == 0 {
        DueListIsPrefix(recs, rest, now, 0);
      } else {
        DueListIsPrefix(recs, rest, now, q - 1);
        assert order[..q] == [order[0]] + rest[..q - 1];
      }
    }
  }

  /** What listExpiredCb selects: everything on a rollover, else the timers due by now. */
  function Selected(s: State, now: nat): (ids: seq<nat>)
    requires Inv(s)
  {
    if RollsOver(s.previous, now) then s.order else DueList(s.recs, s.order, now)
  }

  lemma FiringStarts(s: State, q: nat)
    requires Inv(s) && q <= |s.order|
    ensures Firing(s.recs, s.order[q..], s.order[..q])
  {
    Distinct(s, q);
    var tail, head := s.order[q..], s.order[..q];
    forall i, j | 0 <= i < j < |tail| ensures Less(KeyOf(s.recs, tail[i]), KeyOf(s.recs, tail[j])) {
      assert tail[i] == s.order[q + i] && tail[j] == s.order[q + j];
    }
    forall id | id in head ensures id !in tail {
      var i :| 0 <= i < q && s.order[i] == id;
      forall j | 0 <= j < |tail| ensures tail[j] != id {
        SortedDistinct(s.recs, s.order, i, q + j);
      }
    }
    assert s.order == head + tail;
  }

  /** The callbacks handed out are exactly those of the selected timers, once each and by deadline;
      one-shot timers are cleared and leave the set, recurring ones are due again a period later, and
      nothing else changes. Neither the probe's address nor `tickled` matters. */
  lemma ExpireExactly(s: State, now: nat, probe: nat)
    requires Inv(s)
    ensures var ids := Selected(s, now); var (s', cbs) := Expire(s, now, probe);
      && Inv(s') && s'.tickled == s.tickled && s'.recs.Keys == s.recs.Keys
      && s'.previous == (if s.order == [] then s.previous else now)
      && |cbs| == |ids|
      && (forall i :: 0 <= i < |ids| ==> ids[i] in s.recs && s.recs[ids[i]].cb == Some(cbs[i]))
      && (forall i, j :: 0 <= i < j < |ids| ==> ids[i] != ids[j] && s.recs[ids[i]].next <= s.recs[ids[j]].next)
      && (forall id :: id in s.recs ==> s'.recs[id] == if id in ids then Fired(s.recs[id], now) else s.recs[id])
      && (forall id :: id in s'.order <==> id in s.order && (id in ids ==> s.recs[id].recurring))
  {
    var q := ExpireFires(s, now, probe);
    SelectedInOrder(s, q);
    var (s', cbs) := Expire(s, now, probe);
    ReachedIn(s);
    hide Expire, Selected, Inv, Known, Sorted;
    FiredEffect(s.recs, s.order, q, now, s'.recs, s'.order, cbs);
  }

  lemma ExpireFires(s: State, now: nat, probe: nat) returns (q: nat)
    requires Inv(s)
    ensures q <= |s.order| && Selected(s, now) == s.order[..q] && Known(s.recs, s.order)
    ensures forall id :: id in s.order[..q] ==> id !in s.order[q..]
    ensures var (s', cbs) := Expire(s, now, probe);
      && Inv(s') && s'.tickled == s.tickled && s'.previous == (if s.order == [] then s.previous else now)
      && FiredAll(s.recs, s.order[q..], s.order[..q], now, s'.recs, s'.order, cbs)
  {
    q := SelectedPrefix(s, now, probe);
    FiringStarts(s, q);
    ExpireUnfolds(s, now, probe, q);
    ReachedIn(s);
    hide Fire, Expire, Selected, Sorted, Firing, Inv, FiredAll;
    FireEffect(s.recs, s.order[q..], s.order[..q], now);
    AllFired(Expire(s, now, probe).0);
  }

  /** What firing the first q timers comes to. */
  lemma FiredEffect(recs: Recs, order: seq<nat>, q: nat, now: nat, r: Recs, o: seq<nat>, cbs: seq<Callback>)
    requires q <= |order| && (forall id :: id in order ==> id in recs)
    requires forall id :: id in order[..q] ==> id !in order[q..]
    requires FiredAll(recs, order[q..], order[..q], now, r, o, cbs)
    ensures var ids := order[..q];
      && r.Keys == recs.Keys && |cbs| == |ids|
      && (forall i :: 0 <= i < |ids| ==> ids[i] in recs && recs[ids[i]].cb == Some(cbs[i]))
      && (forall id :: id in recs ==> r[id] == if id in ids then Fired(recs[id], now) else recs[id])
      && (forall id :: id in o <==> id in order && (id in ids ==> id in recs && recs[id].recurring))
  {
    assert order == order[..q] + order[q..];
    hide Fired;
    FiredOrder(recs, order, q, o);
  }

  lemma FiredOrder(recs: Recs, order: seq<nat>, q: nat, o: seq<nat>)
    requires q <= |order| && (forall id :: id in order ==> id in recs)
    requires forall id :: id in o <==> id in order[q..] || (id in order[..q] && recs[id].recurring)
    requires forall id :: id in order <==> id in order[..q] || id in order[q..]
    requires forall id :: id in order[..q] ==> id !in order[q..]
    ensures forall id :: id in o <==> id in order && (id in order[..q] ==> id in recs && recs[id].recurring)
  {}

  lemma ExpireKeeps(s: State, now: nat, probe: nat)
    requires Inv(s)
    ensures Inv(Expire(s, now, probe).0)
  {
    ExpireExactly(s, now, probe);
  }

  lemma AllFired(s: State)
    requires Firing(s.recs, s.order, [])
    ensures Inv(s)
  {}

  /** The selected timers are a prefix of the set, `q` long. */
  lemma SelectedPrefix(s: State, now: nat, probe: nat) returns (q: nat)
    requires Inv(s)
    ensures q <= |s.order| && Selected(s, now) == s.order[..q]
    ensures q == if RollsOver(s.previous, now) then |s.order| else DueCount(s.recs, s.order, now, probe)
    ensures forall i :: 0 <= i < |s.order| && !RollsOver(s.previous, now) ==>
      (i < q <==> s.recs[s.order[i]].next <= now)
  {
    q := if RollsOver(s.previous, now) then |s.order| else DueCount(s.recs, s.order, now, probe);
    DueExactly(s.recs, s.order, now, probe);
    if RollsOver(s.previous, now) {
      assert s.order[..q] == s.order;
    } else {
      DueListIsPrefix(s.recs, s.order, now, q);
    }
  }

  lemma SelectedInOrder(s: State, q: nat)
    requires Inv(s) && q <= |s.order|
    ensures var ids := s.order[..q];
      forall i, j :: 0 <= i < j < |ids| ==>
        ids[i] in s.recs && ids[j] in s.recs && ids[i] != ids[j] && s.recs[ids[i]].next <= s.recs[ids[j]].next
  {
    var ids := s.order[..q];
    forall i, j | 0 <= i < j < q
      ensures ids[i] in s.recs && ids[j] in s.recs && ids[i] != ids[j] && s.recs[ids[i]].next <= s.recs[ids[j]].next
    {
      assert Less(KeyOf(s.recs, s.order[i]), KeyOf(s.recs, s.order[j]));
    }
  }

  lemma ExpireUnfolds(s: State, now: nat, probe: nat, q: nat)
    requires Inv(s) && q == if RollsOver(s.previous, now) then |s.order| else DueCount(s.recs, s.order, now, probe)
    requires forall i :: 0 <= i < |s.order| && !RollsOver(s.previous, now) ==>
      (i < q <==> s.recs[s.order[i]].next <= now)
    requires Firing(s.recs, s.order[q..], s.order[..q])
    ensures var (r, o, cbs) := Fire(s.recs, s.order[q..], s.order[..q], now);
      var (s', got) := Expire(s, now, probe);
      && s'.recs == r && s'.order == o && got == cbs && s'.tickled == s.tickled
      && s'.previous == (if s.order == [] then s.previous else now)
  {
    if s.order == [] {
      assert q == 0 && s.order[q..] == [] && s.order[..q] == [];
    } else if q == 0 {
      assert s.order[q..] == s.order && s.order[..q] == [];
    }
  }

  // ---------- when a timer fires ----------

  /** No other timer has this callback. */
  ghost predicate Alone(recs: Recs, id: nat, cb: Callback) {
    forall x :: x in recs && x != id ==> recs[x].cb != Some(cb)
  }

  /** An expiry without a rollover hands out the callback of a pending timer exactly when it is due, and then
      once; a recurring timer is due again one period after that, another is done. */
  lemma FiresWhenDue(s: State, id: nat, cb: Callback, t: nat, probe: nat)
    requires Inv(s) && id in s.recs && s.recs[id].cb == Some(cb) && Alone(s.recs, id, cb) && !RollsOver(s.previous, t)
    ensures var (s', cbs) := Expire(s, t, probe); var r := s.recs[id];
      && Inv(s') && id in s'.recs && (cb in cbs <==> r.next <= t) && multiset(cbs)[cb] <= 1
      && (id in s'.order <==> r.next > t || r.recurring)
      && s'.recs[id] == (if r.next > t then r else if r.recurring then r.(next := t + r.ms) else r.(cb := None))
      && Alone(s'.recs, id, cb) && s'.previous == t
  {
    ExpireExactly(s, t, probe);
    SelectedIsDue(s, id, t);
    ReachedIn(s);
    assert id in s.order;
    hide Expire, Selected, Sorted, Known, RollsOver, Inv;
    HandedOut(s.recs, Selected(s, t), Expire(s, t, probe).1, id, cb);
  }

  lemma SelectedIsDue(s: State, id: nat, t: nat)
    requires Inv(s) && id in s.order && !RollsOver(s.previous, t)
    ensures id in s.recs && (id in Selected(s, t) <==> s.recs[id].next <= t) && s.order != []
  {
    hide Sorted;
  }

  lemma HandedOut(recs: Recs, ids: seq<nat>, cbs: seq<Callback>, id: nat, cb: Callback)
    requires |cbs| == |ids| && forall i :: 0 <= i < |ids| ==> ids[i] in recs && recs[ids[i]].cb == Some(cbs[i])
    requires forall i, j :: 0 <= i < j < |ids| ==> ids[i] != ids[j]
    requires id in recs && recs[id].cb == Some(cb) && Alone(recs, id, cb)
    ensures (cb in cbs <==> id in ids) && multiset(cbs)[cb] <= 1
  {
    if id in ids {
      var k :| 0 <= k < |ids| && ids[k] == id;
      assert cbs[k] == cb;
    }
    forall k | 0 <= k < |cbs| && cbs[k] == cb ensures ids[k] == id { assert recs[ids[k]].cb == Some(cb); }
    AtMostOnce(cbs, cb);
  }

  lemma {:induction false} AtMostOnce(cbs: seq<Callback>, cb: Callback)
    requires forall i, j :: 0 <= i < j < |cbs| ==> !(cbs[i] == cb && cbs[j] == cb)
    ensures multiset(cbs)[cb] <= 1
    decreases |cbs|
  {
    if cbs != [] {
      assert cbs == [cbs[0]] + cbs[1..];
      forall i, j | 0 <= i < j < |cbs[1..]| ensures !(cbs[1..][i] == cb && cbs[1..][j] == cb) {
        assert cbs[1..][i] == cbs[i + 1] && cbs[1..][j] == cbs[j + 1];
      }
      AtMostOnce(cbs[1..], cb);
      if cbs[0] == cb {
        forall x | x in cbs[1..] ensures x != cb {
          var k :| 0 <= k < |cbs[1..]| && cbs[1..][k] == x;
          assert cbs[k + 1] == x;
        }
      }
    }
  }

  /** A timer is added at `now`: an expiry at t hands its callback out if and only if t >= now + ms. It is armed
      afterwards if it was too early, or if the timer is recurring, and then for t + ms. */
  lemma AddedFires(s: State, id: nat, ms: nat, recurring: bool, cb: Callback, now: nat, t: nat, probe: nat)
    requires Inv(s) && id !in s.recs && Alone(s.recs, id, cb) && !RollsOver(s.previous, t)
    ensures var s1 := AddTimer(s, id, ms, recurring, cb, now).0;
      && Inv(s1)
      && var (s2, cbs) := Expire(s1, t, probe);
      && Inv(s2) && (cb in cbs <==> t >= now + ms) && multiset(cbs)[cb] <= 1
      && (id in s2.order <==> t < now + ms || recurring)
      && forall t2: nat, probe2: nat :: t >= now + ms && !RollsOver(t, t2) ==>
           (cb in Expire(s2, t2, probe2).1 <==> recurring && t2 >= t + ms)
  {
    AddTimerKeeps(s, id, ms, recurring, cb, now);
    var s1 := AddTimer(s, id, ms, recurring, cb, now).0;
    AddedIs(s, id, ms, recurring, cb, now);
    FiresWhenDue(s1, id, cb, t, probe);
    var s2 := Expire(s1, t, probe).0;
    hide Expire, AddTimer, Inv, RollsOver, Alone;
    forall t2: nat, probe2: nat | t >= now + ms && !RollsOver(t, t2)
      ensures cb in Expire(s2, t2, probe2).1 <==> recurring && t2 >= t + ms
    {
      if recurring { FiresWhenDue(s2, id, cb, t2, probe2); } else { NotHandedOut(s2, id, cb, t2, probe2); }
    }
  }

  lemma AddedIs(s: State, id: nat, ms: nat, recurring: bool, cb: Callback, now: nat)
    requires Inv(s) && id !in s.recs && Alone(s.recs, id, cb)
    ensures var s1 := AddTimer(s, id, ms, recurring, cb, now).0;
      && s1.recs == s.recs[id := TimerRec(now + ms, ms, recurring, Some(cb))] && s1.previous == s.previous
      && Alone(s1.recs, id, cb)
  {
    hide Insert, Sorted;
  }

  lemma NotHandedOut(s: State, id: nat, cb: Callback, t: nat, probe: nat)
    requires Inv(s) && Alone(s.recs, id, cb) && id in s.recs && s.recs[id].cb.None?
    ensures cb !in Expire(s, t, probe).1
  {
    ExpireExactly(s, t, probe);
    hide Expire, Selected, Inv;
  }

  /** refresh of a pending timer at `now`: as if it were added then. The other timers stay as they are. */
  lemma RefreshedFires(s: State, id: nat, cb: Callback, now: nat, t: nat, probe: nat)
    requires Inv(s) && id in s.recs && s.recs[id].cb == Some(cb) && Alone(s.recs, id, cb) && !RollsOver(s.previous, t)
    ensures var s1 := Refresh(s, id, now).0;
      && Inv(s1)
      && s1.recs.Keys == s.recs.Keys && (forall x :: x in s.recs && x != id ==> s1.recs[x] == s.recs[x])
      && var (s2, cbs) := Expire(s1, t, probe);
      && Inv(s2) && (cb in cbs <==> t >= now + s.recs[id].ms) && multiset(cbs)[cb] <= 1
      && (id in s2.order <==> t < now + s.recs[id].ms || s.recs[id].recurring)
  {
    RefreshKeeps(s, id, now);
    RefreshRecs(s, id, now);
    RefreshPrevious(s, id, now);
    hide Expire, Refresh, Inv, RollsOver;
    FiresWhenDue(Refresh(s, id, now).0, id, cb, t, probe);
  }

  lemma RefreshPrevious(s: State, id: nat, now: nat)
    requires Inv(s) && id in s.recs
    ensures Refresh(s, id, now).0.previous == s.previous
  {
    hide Insert, Find, Sorted;
  }

  lemma ResetRecs(s: State, id: nat, ms: nat, fromNow: bool, now: nat)
    requires Inv(s) && id in s.recs && s.recs[id].cb.Some?
    ensures s.recs[id].ms <= s.recs[id].next
    ensures var (s', ok, _) := Reset(s, id, ms, fromNow, now); var r := s.recs[id];
      && ok && s'.previous == s.previous
      && s'.recs == s.recs[id := r.(ms := ms, next := (if fromNow then now else r.next - r.ms) + ms)]
  {
    var r := s.recs[id];
    PeriodBelowDeadline(s, id);
    if ms == r.ms && !fromNow {
      assert s.recs == s.recs[id := r.(ms := ms, next := r.next - r.ms + ms)];
      hide Inv, Find;
    } else {
      TakeOut(s, id, r);
      hide Inv, Insert, Find, Sorted, Known;
    }
  }

  /** reset of a pending timer: an expiry at t hands its callback out if and only if the new period has passed,
      from now on or from where the present period began. The other timers stay as they are. */
  lemma ResetFires(s: State, id: nat, cb: Callback, ms: nat, fromNow: bool, now: nat, t: nat, probe: nat)
    requires Inv(s) && id in s.recs && s.recs[id].cb == Some(cb) && Alone(s.recs, id, cb) && !RollsOver(s.previous, t)
    ensures s.recs[id].ms <= s.recs[id].next
    ensures var s1 := Reset(s, id, ms, fromNow, now).0; var began := s.recs[id].next - s.recs[id].ms;
      && Inv(s1)
      && s1.recs.Keys == s.recs.Keys && (forall x :: x in s.recs && x != id ==> s1.recs[x] == s.recs[x])
      && var (s2, cbs) := Expire(s1, t, probe);
      && Inv(s2) && (cb in cbs <==> t >= (if fromNow then now else began) + ms) && multiset(cbs)[cb] <= 1
      && (id in s2.order <==> t < (if fromNow then now else began) + ms || s.recs[id].recurring)
      && s1.recs[id].ms == ms
  {
    ResetKeeps(s, id, ms, fromNow, now);
    ResetRecs(s, id, ms, fromNow, now);
    hide Expire, Reset, Inv, RollsOver;
    FiresWhenDue(Reset(s, id, ms, fromNow, now).0, id, cb, t, probe);
  }

  /** A timer that was added at `added` and reset with the old start of its period is due at added + ms. */
  lemma AddedThenReset(s: State, id: nat, ms0: nat, recurring: bool, cb: Callback, added: nat, ms: nat, now: nat,
          t: nat, probe: nat)
    requires Inv(s) && id !in s.recs && Alone(s.recs, id, cb) && !RollsOver(s.previous, t)
    ensures var s1 := AddTimer(s, id, ms0, recurring, cb, added).0;
      && Inv(s1)
      && var s2 := Reset(s1, id, ms, false, now).0;
      && Inv(s2)
      && (cb in Expire(s2, t, probe).1 <==> t >= added + ms)
  {
    AddTimerKeeps(s, id, ms0, recurring, cb, added);
    AddedIs(s, id, ms0, recurring, cb, added);
    var s1 := AddTimer(s, id, ms0, recurring, cb, added).0;
    hide Expire, Reset, AddTimer, Inv, RollsOver, Alone;
    ResetFires(s1, id, cb, ms, false, now, t, probe);
  }

  lemma CancelRecs(s: State, id: nat)
    requires Inv(s) && id in s.recs
    ensures var (s', ok) := Cancel(s, id);
      s'.recs == s.recs[id := s.recs[id].(cb := None)] && s'.previous == s.previous && s'.tickled == s.tickled
  {
    assert s.recs[id].cb.None? ==> s.recs[id := s.recs[id].(cb := None)] == s.recs;
    hide Find, Sorted;
  }

  /** A cancelled timer is not handed out by any expiry, and the other timers stay as they are. */
  lemma CancelledNeverFires(s: State, id: nat, cb: Callback, t: nat, probe: nat)
    requires Inv(s) && id in s.recs && Alone(s.recs, id, cb)
    ensures var s1 := Cancel(s, id).0;
      && Inv(s1) && s1.recs.Keys == s.recs.Keys && (forall x :: x in s.recs && x != id ==> s1.recs[x] == s.recs[x])
      && id !in s1.order && cb !in Expire(s1, t, probe).1 && id !in Expire(s1, t, probe).0.order
  {
    CancelKeeps(s, id);
    CancelRecs(s, id);
    ReachedIn(s);
    hide Expire, Cancel, Inv;
    var s1 := Cancel(s, id).0;
    NotHandedOut(s1, id, cb, t, probe);
    ExpireExactly(s1, t, probe);
  }

  /** refresh and reset of a timer that is not pending change nothing. */
  lemma IdleStaysIdle(s: State, id: nat, ms: nat, fromNow: bool, now: nat)
    requires Inv(s) && id in s.recs && s.recs[id].cb.None?
    ensures Refresh(s, id, now) == (s, false)
    ensures Reset(s, id, ms, fromNow, now) == (s, ms == s.recs[id].ms && !fromNow, false)
  {
    hide Find, Sorted;
  }

  /** Adding a timer notifies exactly when it comes before all others and nobody was told since the last
      getNextTimer. */
  lemma AddNotifiesExactly(s: State, id: nat, ms: nat, recurring: bool, cb: Callback, now: nat)
    requires Inv(s) && id !in s.recs
    ensures var (s', n) := AddTimer(s, id, ms, recurring, cb, now);
      && (n <==> !s.tickled && forall x :: x in s.order ==> x in s.recs && Less(Key(now + ms, id), KeyOf(s.recs, x)))
      && s'.tickled == (s.tickled || n)
  {
    var recs := s.recs[id := TimerRec(now + ms, ms, recurring, Some(cb))];
    UpdateOutside(s.recs, s.order, id, recs[id]);
    var p := LowerBound(recs, s.order, KeyOf(recs, id));
    if p == 0 {
      forall x | x in s.order ensures Less(Key(now + ms, id), KeyOf(s.recs, x)) {
        var i :| 0 <= i < |s.order| && s.order[i] == x;
        assert !Less(KeyOf(recs, s.order[0]), KeyOf(recs, id)) && s.order[0] in s.order;
        if i > 0 { assert Less(KeyOf(recs, s.order[0]), KeyOf(recs, s.order[i])); }
      }
    } else {
      assert Less(KeyOf(recs, s.order[0]), KeyOf(recs, id)) && s.order[0] in s.order;
    }
  }

  predicate Pending(s: State, id: nat) { id in s.recs && s.recs[id].cb.Some? }

  /** getNextTimer says never exactly when no timer is pending, and otherwise how long it is to the first
      deadline: 0 when one has passed. It allows the next notification. */
  lemma NextTimerExactly(s: State, now: nat)
    requires Inv(s)
    ensures var (s', wait) := NextTimer(s, now);
      && s' == s.(tickled := false)
      && (wait.None? <==> forall id :: !Pending(s, id))
      && (wait.Some? ==> forall id :: Pending(s, id) ==> wait.value == 0 || now + wait.value <= s.recs[id].next)
      && (wait.Some? ==> exists id :: Pending(s, id) && s.recs[id].next <= now + wait.value)
  {
    FrontIsFirst(s);
    if s.order != [] { assert s.order[0] in s.order && Pending(s, s.order[0]); }
  }

  /** Only due timers are handed out exactly when no rollover is seen, or everything is due anyway. */
  lemma OnlyDueFireExactly(s: State, now: nat)
    requires Inv(s)
    ensures (forall id :: id in Selected(s, now) ==> s.recs[id].next <= now)
       <==> (!RollsOver(s.previous, now) || forall id :: id in s.order ==> s.recs[id].next <= now)
  {}

  /** Two readings of the clock that reach the lock in the wrong order, during the first hour of uptime:
      a timer due at 5000 fires at 100. */
  lemma EarlyFiringExists()
    ensures var s := State(map[7 := TimerRec(5000, 5000, false, Some(1))], [7], false, 101);
      Inv(s) && Expire(s, 100, 0).1 == [1]
  {
    var s := State(map[7 := TimerRec(5000, 5000, false, Some(1))], [7], false, 101);
    assert Inv(s) && RollsOver(101, 100);
    ExpireExactly(s, 100, 0);
  }

  // ---------- runs ----------

  /** Refresh, Reset and Next read the clock under the lock; Add and Expire before taking it. */
  datatype Op =
    | Tick(ms: nat)
    | AddOp(id: nat, ms: nat, recurring: bool, cb: Callback, now: nat)
    | CancelOp(id: nat)
    | RefreshOp(id: nat)
    | ResetOp(id: nat, ms: nat, fromNow: bool)
    | NextOp
    | ExpireOp(now: nat, probe: nat)

  /** `notified` records whether onTimerInsertedAtFront ran since the point of interest. */
  datatype Sys = Sys(s: State, clock: nat, notified: bool)

  ghost predicate RunInv(y: Sys) {
    Inv(y.s) && forall id :: id in y.s.recs ==> y.s.recs[id].next <= y.clock + y.s.recs[id].ms
  }

  ghost predicate Legal(y: Sys, op: Op)
    requires Inv(y.s)
  {
    match op
    case Tick(_) => true
    case AddOp(id, _, _, _, now) => id !in y.s.recs && now <= y.clock
    case CancelOp(id) => id in y.s.recs
    case RefreshOp(id) => id in y.s.recs
    case ResetOp(id, _, _) => id in y.s.recs
    case NextOp => true
    case ExpireOp(now, _) => now <= y.clock
  }

  ghost function Step(y: Sys, op: Op): Sys
    requires Inv(y.s) && Legal(y, op)
  {
    match op
    case Tick(ms) => y.(clock := y.clock + ms)
    case AddOp(id, ms, recurring, cb, now) =>
      var (s, n) := AddTimer(y.s, id, ms, recurring, cb, now);
      y.(s := s, notified := y.notified || n)
    case CancelOp(id) => y.(s := Cancel(y.s, id).0)
    case RefreshOp(id) => y.(s := Refresh(y.s, id, y.clock).0)
    case ResetOp(id, ms, fromNow) =>
      var (s, _, n) := Reset(y.s, id, ms, fromNow, y.clock);
      y.(s := s, notified := y.notified || n)
    case NextOp => y.(s := NextTimer(y.s, y.clock).0)
    case ExpireOp(now, probe) => y.(s := Expire(y.s, now, probe).0)
  }

  /** No timer of the set is due before `t`; None is never. */
  ghost predicate NoneBefore(s: State, t: Option<nat>)
    requires Known(s.recs, s.order)
  {
    if t.None? then s.order == [] else forall id :: id in s.order ==> t.value <= s.recs[id].next
  }

  /** Either the wait may go on until `t`, or its owner was told; `m_tickled` is set only after telling. */
  ghost predicate Awake(y: Sys, t: Option<nat>)
    requires Inv(y.s)
  {
    (y.s.tickled ==> y.notified) && (y.notified || NoneBefore(y.s, t))
  }

  lemma StepKeepsInv(y: Sys, op: Op)
    requires RunInv(y) && Legal(y, op)
    ensures Inv(Step(y, op).s)
  {
    match op
    case AddOp(id, ms, recurring, cb, now) => AddTimerKeeps(y.s, id, ms, recurring, cb, now);
    case CancelOp(id) => CancelKeeps(y.s, id);
    case RefreshOp(id) => RefreshKeeps(y.s, id, y.clock);
    case ResetOp(id, ms, fromNow) => ResetKeeps(y.s, id, ms, fromNow, y.clock);
    case ExpireOp(now, probe) => ExpireExactly(y.s, now, probe);
    case _ =>
  }

  /** When the inserted timer is not first, the first one was there before. */
  lemma FrontAfterInsert(s: State, id: nat, t: Option<nat>)
    requires Known(s.recs, s.order) && Sorted(s.recs, s.order) && id in s.recs && id !in s.order
    requires NoneBefore(s, t)
    ensures var (s', n) := AddToSet(s, id);
      && Known(s'.recs, s'.order) && s'.recs == s.recs
      && (s'.tickled ==> s.tickled || n)
      && (s.tickled || n || NoneBefore(s', t))
  {
    InsertSorts(s.recs, s.order, id);
    var order := Insert(s.recs, s.order, id);
    if order[0] != id {
      assert order[0] == s.order[0];
      assert id in order && order[0] in s.order;
      var i :| 0 <= i < |order| && order[i] == id;
      assert Less(KeyOf(s.recs, order[0]), KeyOf(s.recs, order[i]));
    }
  }

  lemma StepKeepsDeadlines(y: Sys, op: Op)
    requires RunInv(y) && Legal(y, op)
    ensures RunInv(Step(y, op))
  {
    StepKeepsInv(y, op);
    if op.ExpireOp? { ExpireExactly(y.s, op.now, op.probe); }
    var z := Step(y, op);
    hide Inv;
    forall id | id in z.s.recs ensures z.s.recs[id].next <= z.clock + z.s.recs[id].ms {
      assert id in y.s.recs || op.AddOp?;
    }
  }

  lemma AddWakes(y: Sys, id: nat, ms: nat, recurring: bool, cb: Callback, now: nat, t: Option<nat>)
    requires Inv(y.s) && id !in y.s.recs && Awake(y, t)
    requires Inv(AddTimer(y.s, id, ms, recurring, cb, now).0)
    ensures var (s, n) := AddTimer(y.s, id, ms, recurring, cb, now);
      Awake(y.(s := s, notified := y.notified || n), t)
  {
    var recs := y.s.recs[id := TimerRec(now + ms, ms, recurring, Some(cb))];
    UpdateOutside(y.s.recs, y.s.order, id, recs[id]);
    if !y.notified { FrontAfterInsert(y.s.(recs := recs), id, t); }
  }

  lemma RefreshWakes(y: Sys, id: nat, t: Option<nat>)
    requires RunInv(y) && id in y.s.recs && Awake(y, t)
    ensures Inv(Refresh(y.s, id, y.clock).0) && Awake(y.(s := Refresh(y.s, id, y.clock).0), t)
  {
    RefreshKeeps(y.s, id, y.clock);
    RefreshRecs(y.s, id, y.clock);
    ReachedIn(y.s);
    hide Refresh, Inv, Sorted;
    var s' := Refresh(y.s, id, y.clock).0;
    assert y.s.order == [] ==> s'.order == [] by {
      if s'.order != [] { assert s'.order[0] in s'.order; }
    }
  }

  lemma ReachedIn(s: State)
    requires Inv(s)
    ensures Known(s.recs, s.order) && forall id :: id in s.order ==> id in s.recs
  {}

  lemma ResetWakes(y: Sys, id: nat, ms: nat, fromNow: bool, t: Option<nat>)
    requires RunInv(y) && id in y.s.recs && Awake(y, t)
    ensures var (s, _, n) := Reset(y.s, id, ms, fromNow, y.clock);
      Inv(s) && Awake(y.(s := s, notified := y.notified || n), t)
  {
    ResetKeeps(y.s, id, ms, fromNow, y.clock);
    var r := y.s.recs[id];
    if !(ms == r.ms && !fromNow) && r.cb.Some? && !y.notified {
      var r' := Retimed(r, ms, fromNow, y.clock);
      TakeOut(y.s, id, r');
      hide Insert, Find;
      var w := Withdrawn(y.s, id, Find(y.s.recs, y.s.order, id).value, r');
      assert forall x :: x in w.order ==> w.recs[x] == y.s.recs[x];
      assert t.None? ==> w.order == [] by { if w.order != [] { assert w.order[0] in w.order; } }
      FrontAfterInsert(w, id, t);
    }
  }

  /** The condition under which an expiry leaves the wait right: its owner was told, no rollover is seen,
      or no recurring timer is brought forward to before `t`. */
  ghost predicate KeepsAwake(y: Sys, op: Op, t: Option<nat>) {
    op.ExpireOp? ==>
      || y.notified
      || !RollsOver(y.s.previous, op.now)
      || forall id :: id in y.s.order && id in y.s.recs && y.s.recs[id].recurring ==>
           t.Some? && t.value <= op.now + y.s.recs[id].ms
  }

  lemma ExpireWakesExactly(y: Sys, now: nat, probe: nat, t: Option<nat>)
    requires RunInv(y) && Awake(y, t)
    ensures var s := Expire(y.s, now, probe).0;
      Inv(s) && (Awake(y.(s := s), t) <==> KeepsAwake(y, ExpireOp(now, probe), t))
  {
    ExpireExactly(y.s, now, probe);
    ReachedIn(y.s);
    var s := Expire(y.s, now, probe).0;
    ReachedIn(s);
    assert RollsOver(y.s.previous, now) ==> Selected(y.s, now) == y.s.order;
    assert !RollsOver(y.s.previous, now) ==> forall id :: id in Selected(y.s, now) ==> y.s.recs[id].next <= now;
    hide Expire, Inv, Sorted, Selected, RollsOver;
    if !y.notified {
      if RollsOver(y.s.previous, now) { RearmedAll(y.s, s, now, t); } else { NoneEarlier(y.s, s, now, t); }
    }
  }

  /** On a rollover the set becomes the recurring timers, each due a period after `now`. */
  lemma RearmedAll(a: State, s: State, now: nat, t: Option<nat>)
    requires Known(s.recs, s.order) && (forall id :: id in a.order ==> id in a.recs) && s.recs.Keys == a.recs.Keys
    requires forall id :: id in a.recs ==> s.recs[id] == if id in a.order then Fired(a.recs[id], now) else a.recs[id]
    requires forall id :: id in s.order <==> id in a.order && a.recs[id].recurring
    ensures NoneBefore(s, t) <==>
      forall id :: id in a.order && id in a.recs && a.recs[id].recurring ==> t.Some? && t.value <= now + a.recs[id].ms
  {
    if t.None? && s.order != [] { assert s.order[0] in s.order; }
    forall id | id in s.order ensures s.recs[id].next == now + a.recs[id].ms {}
  }

  lemma HasFirst(order: seq<nat>)
    ensures order != [] ==> exists id :: id in order
  {
    if order != [] { assert order[0] in order; }
  }

  /** Otherwise nobody is brought forward to before `now` and the deadline it had. */
  lemma NoneEarlier(a: State, s: State, now: nat, t: Option<nat>)
    requires Known(a.recs, a.order) && Known(s.recs, s.order) && s.recs.Keys == a.recs.Keys && NoneBefore(a, t)
    requires forall id :: id in s.order ==> id in a.order && id in s.recs
    requires forall id :: id in s.order ==> s.recs[id].next >= a.recs[id].next
    ensures NoneBefore(s, t)
  {
    HasFirst(s.order);
  }

  /** One step, of any thread, leaves the wait right exactly under that condition. */
  lemma StepWakesExactly(y: Sys, op: Op, t: Option<nat>)
    requires RunInv(y) && Legal(y, op) && Awake(y, t)
    ensures RunInv(Step(y, op))
    ensures Awake(Step(y, op), t) <==> KeepsAwake(y, op, t)
  {
    StepKeepsDeadlines(y, op);
    hide Inv, NoneBefore;
    match op
    case AddOp(id, ms, recurring, cb, now) => AddWakes(y, id, ms, recurring, cb, now, t);
    case CancelOp(id) => CancelWakes(y, id, t);
    case RefreshOp(id) => RefreshWakes(y, id, t);
    case ResetOp(id, ms, fromNow) => ResetWakes(y, id, ms, fromNow, t);
    case ExpireOp(now, probe) => ExpireWakesExactly(y, now, probe, t);
    case Tick(_) =>
    case NextOp => NextWakes(y, t);
  }

  lemma NextWakes(y: Sys, t: Option<nat>)
    requires RunInv(y) && Awake(y, t)
    ensures Inv(NextTimer(y.s, y.clock).0) && Awake(y.(s := NextTimer(y.s, y.clock).0), t)
  {}

  lemma CancelWakes(y: Sys, id: nat, t: Option<nat>)
    requires RunInv(y) && id in y.s.recs && Awake(y, t)
    ensures Inv(Cancel(y.s, id).0) && Awake(y.(s := Cancel(y.s, id).0), t)
  {
    CancelKeeps(y.s, id);
    var s := Cancel(y.s, id).0;
    assert t.None? && y.s.order == [] ==> s.order == [] by { if s.order != [] { assert s.order[0] in s.order; } }
  }

  ghost predicate LegalRun(y: Sys, ops: seq<Op>)
    requires RunInv(y)
    decreases |ops|
  {
    ops == [] || (Legal(y, ops[0]) && (StepKeepsDeadlines(y, ops[0]); LegalRun(Step(y, ops[0]), ops[1..])))
  }

  ghost function Run(y: Sys, ops: seq<Op>): Sys
    requires RunInv(y) && LegalRun(y, ops)
    decreases |ops|
  {
    if ops == [] then y else (StepKeepsDeadlines(y, ops[0]); Run(Step(y, ops[0]), ops[1..]))
  }

  /** The wait is right after every step of a run. */
  ghost predicate AlwaysAwake(y: Sys, ops: seq<Op>, t: Option<nat>)
    requires RunInv(y) && LegalRun(y, ops)
    decreases |ops|
  {
    Awake(y, t) && (ops == [] || (StepKeepsDeadlines(y, ops[0]); AlwaysAwake(Step(y, ops[0]), ops[1..], t)))
  }

  ghost predicate AllKeepAwake(y: Sys, ops: seq<Op>, t: Option<nat>)
    requires RunInv(y) && LegalRun(y, ops)
    decreases |ops|
  {
    ops == []
    || (KeepsAwake(y, ops[0], t)
        && (StepKeepsDeadlines(y, ops[0]); AllKeepAwake(Step(y, ops[0]), ops[1..], t)))
  }

  lemma {:induction false} RunWakesExactly(y: Sys, ops: seq<Op>, t: Option<nat>)
    requires RunInv(y) && LegalRun(y, ops) && Awake(y, t)
    ensures AlwaysAwake(y, ops, t) <==> AllKeepAwake(y, ops, t)
    ensures RunInv(Run(y, ops)) && (AlwaysAwake(y, ops, t) ==> Awake(Run(y, ops), t))
    decreases |ops|
  {
    hide Awake, KeepsAwake, Step, Legal, Inv;
    if ops != [] {
      StepWakesExactly(y, ops[0], t);
      var z := Step(y, ops[0]);
      if Awake(z, t) { RunWakesExactly(z, ops[1..], t); } else { RunStays(z, ops[1..]); NotAlways(z, ops[1..], t); }
    }
  }

  lemma NotAlways(y: Sys, ops: seq<Op>, t: Option<nat>)
    requires RunInv(y) && LegalRun(y, ops) && !Awake(y, t)
    ensures !AlwaysAwake(y, ops, t)
  {
    hide Awake, Inv, Step, Legal;
  }

  lemma {:induction false} RunStays(y: Sys, ops: seq<Op>)
    requires RunInv(y) && LegalRun(y, ops)
    ensures RunInv(Run(y, ops))
    decreases |ops|
  {
    hide Step, Legal, Inv;
    if ops != [] {
      StepKeepsDeadlines(y, ops[0]);
      RunStays(Step(y, ops[0]), ops[1..]);
    }
  }

  /** The deadline a call of getNextTimer reports, None for never. */
  function Front(s: State): Option<nat>
    requires Inv(s)
  {
    if s.order == [] then None else Some(s.recs[s.order[0]].next)
  }

  /** Is a wake-up ever lost? After getNextTimer reported a wait, in every run of operations of any threads,
      nothing is due before the reported end of the wait or onTimerInsertedAtFront ran since, after every
      step, exactly when every expiry of the run meets its condition: it sees no rollover, or brings no
      recurring timer forward to before that end, or the owner of the wait has been told already. */
  lemma NoLostWakeUp(y: Sys, ops: seq<Op>)
    requires RunInv(y) && LegalRun(Sys(NextTimer(y.s, y.clock).0, y.clock, false), ops)
    ensures var (s, wait) := NextTimer(y.s, y.clock);
      var y0, t := Sys(s, y.clock, false), Front(y.s);
      && (wait.None? <==> t.None?)
      && (wait.Some? ==> t.value == y.clock + wait.value || (wait.value == 0 && t.value <= y.clock))
      && NoneBefore(y0.s, t)
      && (AlwaysAwake(y0, ops, t) <==> AllKeepAwake(y0, ops, t))
      && Inv(Run(y0, ops).s)
      && (AllKeepAwake(y0, ops, t) ==> Run(y0, ops).notified || NoneBefore(Run(y0, ops).s, t))
  {
    var y0 := Sys(NextTimer(y.s, y.clock).0, y.clock, false);
    FrontIsFirst(y.s);
    assert Awake(y0, Front(y.s));
    RunWakesExactly(y0, ops, Front(y.s));
  }

  lemma FrontIsFirst(s: State)
    requires Inv(s)
    ensures NoneBefore(s, Front(s))
  {
    forall id | id in s.order ensures s.recs[s.order[0]].next <= s.recs[id].next {
      var i :| 0 <= i < |s.order| && s.order[i] == id;
      if i > 0 { assert Less(KeyOf(s.recs, s.order[0]), KeyOf(s.recs, s.order[i])); }
    }
  }

  /** A rollover can lose one: re-arming a recurring timer from an old reading brings its deadline
      forward without telling anyone. */
  lemma RolloverLosesWakeUp()
    ensures var y := Sys(State(map[7 := TimerRec(5250, 100, true, Some(1))], [7], false, 5150), 5150, false);
      && RunInv(y) && Front(y.s) == Some(5250)
      && RollsOver(5150, 5149)
      && var s := Expire(NextTimer(y.s, y.clock).0, 5149, 0).0; Inv(s) && !NoneBefore(s, Some(5250))
  {
    var y := Sys(State(map[7 := TimerRec(5250, 100, true, Some(1))], [7], false, 5150), 5150, false);
    assert Inv(y.s);
    var s0 := NextTimer(y.s, y.clock).0;
    ExpireExactly(s0, 5149, 0);
    assert 7 in Expire(s0, 5149, 0).0.order;
  }
}
