/** The timer manager as a machine on values: timers by address, and the ordered set as a sorted list. */
module TimerSpec {
  import opened Numbers
  import opened Wrappers

  type Callback = nat

  const HOUR_MS := 60 * 60 * 1000

  datatype TimerRec = TimerRec(next: nat, ms: nat, recurring: bool, cb: Option<Callback>)

  datatype Key = Key(next: nat, addr: nat)

  /** Timer::Comparator on non-null timers: by deadline, ties by address. */
  predicate Less(a: Key, b: Key) {
    if a.next < b.next then true else if b.next < a.next then false else a.addr < b.addr
  }

  type Recs = map<nat, TimerRec>

  function KeyOf(recs: Recs, id: nat): Key
    requires id in recs
  {
    Key(recs[id].next, id)
  }

  ghost predicate Known(recs: Recs, order: seq<nat>) {
    forall i :: 0 <= i < |order| ==> order[i] in recs
  }

  ghost predicate Sorted(recs: Recs, order: seq<nat>)
    requires Known(recs, order)
  {
    forall i, j :: 0 <= i < j < |order| ==> Less(KeyOf(recs, order[i]), KeyOf(recs, order[j]))
  }

  // ---------- std::set ----------

  /** The first position whose timer is not less than `k`. */
  function LowerBound(recs: Recs, order: seq<nat>, k: Key): (p: nat)
    requires Known(recs, order)
    ensures p <= |order|
    ensures forall i :: 0 <= i < p ==> Less(KeyOf(recs, order[i]), k)
    ensures p < |order| ==> !Less(KeyOf(recs, order[p]), k)
  {
    if order == [] || !Less(KeyOf(recs, order[0]), k) then 0
    else
      assert forall i :: 0 <= i < |order| - 1 ==> order[1..][i] == order[i + 1];
      1 + LowerBound(recs, order[1..], k)
  }

  function Insert(recs: Recs, order: seq<nat>, id: nat): seq<nat>
    requires Known(recs, order) && id in recs
  {
    var p := LowerBound(recs, order, KeyOf(recs, id));
    order[..p] + [id] + order[p..]
  }

  /** `find`: the position of an element neither less nor greater than the timer itself. */
  function Find(recs: Recs, order: seq<nat>, id: nat): (p: Option<nat>)
    requires Known(recs, order) && id in recs
    ensures p.Some? ==> p.value < |order|
  {
    var p := LowerBound(recs, order, KeyOf(recs, id));
    if p < |order| && !Less(KeyOf(recs, id), KeyOf(recs, order[p])) then Some(p) else None
  }

  function Erase(order: seq<nat>, p: nat): seq<nat>
    requires p < |order|
  {
    order[..p] + order[p + 1..]
  }

  /** In a sorted set `find` finds exactly the timer itself. */
  lemma FindFinds(recs: Recs, order: seq<nat>, id: nat)
    requires Known(recs, order) && Sorted(recs, order) && id in recs
    ensures Find(recs, order, id).Some? <==> id in order
    ensures Find(recs, order, id).Some? ==> order[Find(recs, order, id).value] == id
  {
    var p := LowerBound(recs, order, KeyOf(recs, id));
    if id in order {
      var i :| 0 <= i < |order| && order[i] == id;
    }
  }

  lemma InsertSorts(recs: Recs, order: seq<nat>, id: nat)
    requires Known(recs, order) && Sorted(recs, order) && id in recs && id !in order
    ensures Known(recs, Insert(recs, order, id)) && Sorted(recs, Insert(recs, order, id))
    ensures forall x :: x in Insert(recs, order, id) <==> x == id || x in order
  {
    var k := KeyOf(recs, id);
    var p := LowerBound(recs, order, k);
    var r := Insert(recs, order, id);
    if p < |order| {
      assert order[p] in order;
      assert Less(k, KeyOf(recs, order[p]));
    }
    forall i, j | 0 <= i < j < |r| ensures Less(KeyOf(recs, r[i]), KeyOf(recs, r[j])) {
      var i', j' := (if i < p then i else i - 1), (if j < p then j else j - 1);
      if i != p && j != p {
        assert r[i] == order[i'] && r[j] == order[j'];
      } else if i == p {
        assert r[j] == order[j'];
        if j' > p { assert Less(KeyOf(recs, order[p]), KeyOf(recs, order[j'])); }
      }
    }
  }

  lemma SortedDistinct(recs: Recs, order: seq<nat>, i: nat, j: nat)
    requires Known(recs, order) && Sorted(recs, order) && i < |order| && j < |order| && i != j
    ensures order[i] != order[j]
  {
    assert Less(KeyOf(recs, order[i]), KeyOf(recs, order[j])) || Less(KeyOf(recs, order[j]), KeyOf(recs, order[i]));
  }

  lemma EraseSorts(recs: Recs, order: seq<nat>, p: nat)
    requires Known(recs, order) && Sorted(recs, order) && p < |order|
    ensures Known(recs, Erase(order, p)) && Sorted(recs, Erase(order, p))
    ensures forall x :: x in Erase(order, p) <==> x in order && x != order[p]
  {
    var r := Erase(order, p);
    forall i, j | 0 <= i < j < |r| ensures Less(KeyOf(recs, r[i]), KeyOf(recs, r[j])) {
      assert r[i] == order[if i < p then i else i + 1];
      assert r[j] == order[if j < p then j else j + 1];
    }
    forall x ensures x in r <==> x in order && x != order[p] {
      if x in order && x != order[p] {
        var i :| 0 <= i < |order| && order[i] == x;
        assert r[if i < p then i else i - 1] == x;
      }
      if x in r {
        var i :| 0 <= i < |r| && r[i] == x;
        SortedDistinct(recs, order, if i < p then i else i + 1, p);
      }
    }
  }

  /** Changing a timer that is not in the set keeps the set sorted. */
  lemma UpdateOutside(recs: Recs, order: seq<nat>, id: nat, t: TimerRec)
    requires Known(recs, order) && Sorted(recs, order) && id !in order
    ensures Known(recs[id := t], order) && Sorted(recs[id := t], order)
  {
    forall i | 0 <= i < |order| ensures order[i] in recs[id := t] && recs[id := t][order[i]] == recs[order[i]] {
      assert order[i] in order;
    }
  }

  // ---------- the operations ----------

  datatype State = State(recs: Recs, order: seq<nat>, tickled: bool, previous: nat)

  /** The set is sorted, a timer is in it exactly when it has a callback, and no deadline is below its period. */
  ghost predicate Inv(s: State) {
    && Known(s.recs, s.order) && Sorted(s.recs, s.order)
    && (forall id :: id in s.recs ==> (s.recs[id].cb.Some? <==> id in s.order))
    && (forall id :: id in s.recs ==> s.recs[id].ms <= s.recs[id].next)
  }

  /** TimerManager::addTimer(Timer::ptr, lock): insert, and notify when it came first and no one was told yet. */
  function AddToSet(s: State, id: nat): (r: (State, bool))
    requires Known(s.recs, s.order) && id in s.recs
  {
    var order := Insert(s.recs, s.order, id);
    var atFront := order[0] == id && !s.tickled;
    (s.(order := order, tickled := s.tickled || atFront), atFront)
  }

  function AddTimer(s: State, id: nat, ms: nat, recurring: bool, cb: Callback, now: nat): (r: (State, bool))
    requires Inv(s) && id !in s.recs
  {
    var recs := s.recs[id := TimerRec(now + ms, ms, recurring, Some(cb))];
    UpdateOutside(s.recs, s.order, id, recs[id]);
    AddToSet(s.(recs := recs), id)
  }

  function Cancel(s: State, id: nat): (r: (State, bool))
    requires Inv(s) && id in s.recs
  {
    var t := s.recs[id];
    if t.cb.None? then (s, false)
    else
      var recs := s.recs[id := t.(cb := None)];
      assert Known(recs, s.order);
      match Find(recs, s.order, id)
      case Some(p) => (s.(recs := recs, order := Erase(s.order, p)), true)
      case None => (s.(recs := recs), true)
  }

  function Refresh(s: State, id: nat, now: nat): (r: (State, bool))
    requires Inv(s) && id in s.recs
  {
    var t := s.recs[id];
    if t.cb.None? then (s, false)
    else match Find(s.recs, s.order, id)
      case None => (s, false)
      case Some(p) =>
        EraseSorts(s.recs, s.order, p);
        var s1 := Withdrawn(s, id, p, t.(next := now + t.ms));
        assert Known(s1.recs, s1.order);
        (s1.(order := Insert(s1.recs, s1.order, id)), true)
  }

  /** The timer with period `ms`, counted from now or from when its period began. */
  function Retimed(t: TimerRec, ms: nat, fromNow: bool, now: nat): TimerRec
    requires t.ms <= t.next
  {
    t.(ms := ms, next := (if fromNow then now else t.next - t.ms) + ms)
  }

  /** Position `p` leaves the set and timer `id` becomes `t`. */
  function Withdrawn(s: State, id: nat, p: nat, t: TimerRec): State
    requires p < |s.order|
  {
    s.(recs := s.recs[id := t], order := Erase(s.order, p))
  }

  /** State, result, and whether onTimerInsertedAtFront ran. */
  function Reset(s: State, id: nat, ms: nat, fromNow: bool, now: nat): (r: (State, bool, bool))
    requires Inv(s) && id in s.recs
  {
    var t := s.recs[id];
    if ms == t.ms && !fromNow then (s, true, false)
    else if t.cb.None? then (s, false, false)
    else match Find(s.recs, s.order, id)
      case None => (s, false, false)
      case Some(p) =>
        EraseSorts(s.recs, s.order, p);
        var s1 := Withdrawn(s, id, p, Retimed(t, ms, fromNow, now));
        assert Known(s1.recs, s1.order);
        var (s2, notify) := AddToSet(s1, id);
        (s2, true, notify)
  }

  /** Milliseconds to the first deadline; None is ~0ull. */
  function NextTimer(s: State, now: nat): (r: (State, Option<nat>))
    requires Inv(s)
  {
    var s' := s.(tickled := false);
    if s.order == [] then (s', None)
    else
      var next := s.recs[s.order[0]].next;
      (s', Some(if now >= next then 0 else next - now))
  }

  /** `a - b` in 64-bit unsigned arithmetic. */
  function Minus64(a: nat, b: nat): (r: nat)
    requires a < TWO_64 && b < TWO_64
    ensures r < TWO_64
  {
    if b <= a then a - b else a - b + TWO_64
  }

  /** detectClockRollover's test; the subtraction is unsigned. */
  predicate RollsOver(previous: nat, now: nat) {
    now < previous && previous < TWO_64 && now < Minus64(previous, HOUR_MS)
  }

  /** While the machine is up less than an hour any backward reading at all counts as a rollover. */
  lemma RolloverExactly(previous: nat, now: nat)
    requires previous < TWO_64
    ensures RollsOver(previous, now) <==> now < previous && (previous < 3_600_000 || now < previous - 3_600_000)
  {}

  /** From `p` on, skip the timers due exactly at `now`. */
  function SkipDue(recs: Recs, order: seq<nat>, p: nat, now: nat): (q: nat)
    requires Known(recs, order) && p <= |order|
    ensures p <= q <= |order|
    ensures forall i :: p <= i < q ==> recs[order[i]].next == now
    ensures q < |order| ==> recs[order[q]].next != now
    decreases |order| - p
  {
    if p < |order| && recs[order[p]].next == now then SkipDue(recs, order, p + 1, now) else p
  }

  /** Where the due timers end: lower_bound of a probe timer, then past those due at `now`. */
  function DueCount(recs: Recs, order: seq<nat>, now: nat, probe: nat): (q: nat)
    requires Known(recs, order)
    ensures q <= |order|
  {
    SkipDue(recs, order, LowerBound(recs, order, Key(now, probe)), now)
  }

  /** Exactly the timers due by `now` come before it, whatever the probe's address. */
  lemma DueExactly(recs: Recs, order: seq<nat>, now: nat, probe: nat)
    requires Known(recs, order) && Sorted(recs, order)
    ensures forall i :: 0 <= i < |order| ==> (i < DueCount(recs, order, now, probe) <==> recs[order[i]].next <= now)
  {
    var p := LowerBound(recs, order, Key(now, probe));
    var q := SkipDue(recs, order, p, now);
    forall i | 0 <= i < |order| ensures i < q <==> recs[order[i]].next <= now {
      if i < p {
        assert Less(KeyOf(recs, order[i]), Key(now, probe));
      } else if i >= q {
        assert p < |order| && !Less(KeyOf(recs, order[p]), Key(now, probe));
        assert p < q ==> Less(KeyOf(recs, order[p]), KeyOf(recs, order[q]));
        assert q < i ==> Less(KeyOf(recs, order[q]), KeyOf(recs, order[i]));
      }
    }
  }

  /** An expired timer that was handed out: re-armed or disarmed. */
  function Fired(t: TimerRec, now: nat): TimerRec {
    if t.recurring then t.(next := now + t.ms) else t.(cb := None)
  }

  /** The loop over the expired timers: hand out the callback, then re-arm or disarm. */
  function Fire(recs: Recs, order: seq<nat>, expired: seq<nat>, now: nat): (r: (Recs, seq<nat>, seq<Callback>))
    requires Known(recs, order) && (forall id :: id in expired ==> id in recs && recs[id].cb.Some?)
    requires forall i, j :: 0 <= i < j < |expired| ==> expired[i] != expired[j]
    decreases |expired|
  {
    if expired == [] then (recs, order, [])
    else
      var id := expired[0];
      var t := recs[id];
      var recs' := recs[id := Fired(t, now)];
      var order' := if t.recurring then Insert(recs', order, id) else order;
      assert Known(recs', order') by { assert forall x :: x in order' ==> x == id || x in order; }
      assert forall i, j :: 0 <= i < j < |expired[1..]| ==>
        expired[1..][i] == expired[i + 1] && expired[1..][j] == expired[j + 1];
      assert forall x :: x in expired[1..] ==> x != id;
      var (r, o, cbs) := Fire(recs', order', expired[1..], now);
      (r, o, [t.cb.value] + cbs)
  }

  lemma Distinct(s: State, p: nat)
    requires Inv(s) && p <= |s.order|
    ensures forall i, j :: 0 <= i < j < p ==> s.order[..p][i] != s.order[..p][j]
    ensures forall id :: id in s.order[..p] ==> id in s.recs && s.recs[id].cb.Some?
  {
    forall i, j | 0 <= i < j < p ensures s.order[..p][i] != s.order[..p][j] {
      SortedDistinct(s.recs, s.order, i, j);
    }
  }

  function Expire(s: State, now: nat, probe: nat): (r: (State, seq<Callback>))
    requires Inv(s)
  {
    if s.order == [] then (s, [])
    else
      var rollover := RollsOver(s.previous, now);
      if !rollover && s.recs[s.order[0]].next > now then (s.(previous := now), [])
      else
        var q := if rollover then |s.order| else DueCount(s.recs, s.order, now, probe);
        Distinct(s, q);
        assert Known(s.recs, s.order[q..]);
        var (recs, order, cbs) := Fire(s.recs, s.order[q..], s.order[..q], now);
        (s.(recs := recs, order := order, previous := now), cbs)
  }
}
