/** The engine's own duplicate suppression, for messages that carry an id. */
module FirstDelivery {
  import opened Wrappers
  import opened Readings

  datatype Slot = Slot(id: string, exp: int)

  /** Drop lapsed slots from the front, stopping at the first that is not. */
  function Sweep(seen: seq<Slot>, t: int): (r: seq<Slot>)
    ensures |r| <= |seen|
    ensures r != [] ==> r[0].exp > t
  {
    if seen == [] || seen[0].exp > t then seen else Sweep(seen[1..], t)
  }

  function Trim(seen: seq<Slot>, max: nat): seq<Slot>
    decreases |seen|
  {
    if |seen| > max then Trim(seen[1..], max) else seen
  }

  predicate Holds(seen: seq<Slot>, id: string) { exists i :: 0 <= i < |seen| && seen[i].id == id }

  /** `firstDelivery` on a message with an id. */
  function Deliver(seen: seq<Slot>, window: nat, max: nat, id: string, t: int): (seq<Slot>, bool) {
    var live := Sweep(seen, t);
    if Holds(live, id) then (live, false) else (Trim(live + [Slot(id, t + window)], max), true)
  }

  class SeenIds {
    var seen: seq<Slot>
    const window: nat
    const max: nat

    constructor (window: nat, max: nat)
      ensures seen == [] && this.window == window && this.max == max
    {
      seen, this.window, this.max := [], window, max;
    }

    /** A message without an id is never taken for a duplicate. */
    method FirstDelivery(id: Option<string>, t: int) returns (first: bool)
      modifies this
      ensures id.None? || id.value == "" ==> first && seen == old(seen)
      ensures id.Some? && id.value != "" ==> (seen, first) == Deliver(old(seen), window, max, id.value, t)
    {
      if id.None? || id.value == "" { return true; }
      while seen != [] && seen[0].exp <= t
        invariant Sweep(seen, t) == Sweep(old(seen), t)
        decreases |seen|
      {
        seen := seen[1..];
      }
      var i := 0;
      while i < |seen|
        invariant 0 <= i <= |seen| && forall j :: 0 <= j < i ==> seen[j].id != id.value
      {
        if seen[i].id == id.value { return false; }
        i := i + 1;
      }
      seen := seen + [Slot(id.value, t + window)];
      while |seen| > max
        invariant Trim(seen, max) == Trim(Sweep(old(seen), t) + [Slot(id.value, t + window)], max)
      {
        seen := seen[1..];
      }
      first := true;
    }
  }

  // --------------------------------------------------------- what suppression amounts to

  datatype Arrival = Arrival(id: string, t: int)

  /** Every first delivery, in order. */
  function Log(seen: seq<Slot>, window: nat, max: nat, arrivals: seq<Arrival>): seq<Slot>
    decreases |arrivals|
  {
    if arrivals == [] then []
    else
      var a := arrivals[0];
      var (next, first) := Deliver(seen, window, max, a.id, a.t);
      (if first then [Slot(a.id, a.t + window)] else []) + Log(next, window, max, arrivals[1..])
  }

  function After(seen: seq<Slot>, window: nat, max: nat, arrivals: seq<Arrival>): seq<Slot>
    decreases |arrivals|
  {
    if arrivals == [] then seen
    else After(Deliver(seen, window, max, arrivals[0].id, arrivals[0].t).0, window, max, arrivals[1..])
  }

  /** The clock's reading at each arrival. */
  function Times(arrivals: seq<Arrival>): (r: seq<int>)
    ensures |r| == |arrivals| && forall i :: 0 <= i < |r| ==> r[i] == arrivals[i].t
  {
    seq(|arrivals|, i requires 0 <= i < |arrivals| => arrivals[i].t)
  }

  /** One of the last `max` first deliveries was of this id, and its window has not passed. */
  predicate Suppressed(log: seq<Slot>, max: nat, id: string, t: int) {
    exists k :: |log| - max <= k && 0 <= k < |log| && log[k].id == id && log[k].exp > t
  }

  /** One of the last `max` first deliveries was of this id, and it or one still before it has its window open. */
  predicate Shielded(log: seq<Slot>, max: nat, id: string, t: int) {
    exists j, k :: |log| - max <= j && 0 <= j <= k < |log| && log[k].id == id && log[j].exp > t
  }

  // ------------------------------------------------------------------ the log and its readings

  /** The slot was logged at an earlier reading than p, and expires one window after that. */
  predicate LoggedAt(ts: seq<int>, window: nat, p: nat, s: Slot, i: nat) {
    i < p <= |ts| && s.exp == ts[i] + window
  }

  /** A reading since then, before p, had it lapsed. */
  predicate LapsedSince(ts: seq<int>, p: nat, s: Slot, i: nat) {
    p <= |ts| && exists j :: i < j < p && s.exp <= ts[j]
  }

  /** `gone + seen` is the log, `at` the reading of each of its slots. What has gone was pushed out, or lapsed at some
      reading after its own. */
  ghost predicate Traced(ts: seq<int>, window: nat, max: nat, p: nat, gone: seq<Slot>, seen: seq<Slot>, at: seq<nat>) {
    && |seen| <= max && |at| == |gone + seen|
    && (forall i, k :: 0 <= i < k < |at| ==> at[i] < at[k])
    && (forall k :: 0 <= k < |at| ==> LoggedAt(ts, window, p, (gone + seen)[k], at[k]))
    && forall k :: 0 <= k < |gone| ==> LapsedSince(ts, p, gone[k], at[k]) || k < |gone| + |seen| - max
  }

  lemma {:induction false} SweepSplits(seen: seq<Slot>, t: int) returns (lapsed: seq<Slot>)
    ensures seen == lapsed + Sweep(seen, t) && forall i :: 0 <= i < |lapsed| ==> lapsed[i].exp <= t
  {
    if seen == [] || seen[0].exp > t {
      lapsed := [];
    } else {
      var more := SweepSplits(seen[1..], t);
      lapsed := [seen[0]] + more;
      assert seen == [seen[0]] + (more + Sweep(seen[1..], t));
    }
  }

  lemma {:induction false} TrimSplits(seen: seq<Slot>, max: nat) returns (pushed: seq<Slot>)
    ensures seen == pushed + Trim(seen, max) && |Trim(seen, max)| == if |seen| > max then max else |seen|
    decreases |seen|
  {
    if |seen| <= max {
      pushed := [];
    } else {
      var more := TrimSplits(seen[1..], max);
      pushed := [seen[0]] + more;
    }
  }

  lemma Associative(a: seq<Slot>, b: seq<Slot>, c: seq<Slot>)
    ensures (a + b) + c == a + (b + c)
  {
  }

  lemma SweptTraced(ts: seq<int>, window: nat, max: nat, p: nat, gone: seq<Slot>, seen: seq<Slot>, at: seq<nat>)
    returns (gone': seq<Slot>)
    requires Traced(ts, window, max, p, gone, seen, at) && p < |ts|
    ensures gone' + Sweep(seen, ts[p]) == gone + seen
    ensures Traced(ts, window, max, p + 1, gone', Sweep(seen, ts[p]), at)
  {
    var lapsed := SweepSplits(seen, ts[p]);
    var next := p + 1;
    gone' := gone + lapsed;
    Associative(gone, lapsed, Sweep(seen, ts[p]));
    forall k | 0 <= k < |at| ensures LoggedAt(ts, window, next, (gone + seen)[k], at[k]) {
      assert LoggedAt(ts, window, p, (gone + seen)[k], at[k]);
    }
    forall k | 0 <= k < |gone'| ensures LapsedSince(ts, next, gone'[k], at[k]) || k < |gone + seen| - max {
      assert LoggedAt(ts, window, p, (gone + seen)[k], at[k]);
      if k < |gone| {
        if j :| at[k] < j < p && gone[k].exp <= ts[j] { assert LapsedSince(ts, next, gone'[k], at[k]); }
      } else {
        assert gone'[k] == lapsed[k - |gone|] && gone'[k].exp <= ts[p];
      }
    }
  }

  lemma DeliverTraced(ts: seq<int>, window: nat, max: nat, p: nat, gone: seq<Slot>, seen: seq<Slot>, at: seq<nat>,
                      id: string)
    returns (gone': seq<Slot>, at': seq<nat>)
    requires Traced(ts, window, max, p, gone, seen, at) && p < |ts|
    ensures var (next, first) := Deliver(seen, window, max, id, ts[p]);
            && gone' + next == gone + seen + (if first then [Slot(id, ts[p] + window)] else [])
            && Traced(ts, window, max, p + 1, gone', next, at')
  {
    var swept := SweptTraced(ts, window, max, p, gone, seen, at);
    var live := Sweep(seen, ts[p]);
    if Holds(live, id) { return swept, at; }
    var slot := Slot(id, ts[p] + window);
    var pushed := TrimSplits(live + [slot], max);
    var kept := Trim(live + [slot], max);
    gone', at' := swept + pushed, at + [p];
    Associative(swept, pushed, kept);
    Associative(swept, live, [slot]);
    var log := swept + live;
    assert gone' + kept == log + [slot];
    forall k | 0 <= k < |at| ensures at[k] < p && LoggedAt(ts, window, p + 1, log[k], at[k]) {
      assert LoggedAt(ts, window, p, (gone + seen)[k], at[k]);
    }
  }

  /** The arrivals fall on successive readings from p. */
  predicate ReadFrom(ts: seq<int>, p: nat, arrivals: seq<Arrival>) {
    p + |arrivals| <= |ts| && forall i :: 0 <= i < |arrivals| ==> arrivals[i].t == ts[p + i]
  }

  lemma RestReadFrom(ts: seq<int>, p: nat, arrivals: seq<Arrival>)
    requires arrivals != [] && ReadFrom(ts, p, arrivals)
    ensures arrivals[0].t == ts[p] && ReadFrom(ts, p + 1, arrivals[1..])
  {
    var rest := arrivals[1..];
    forall i | 0 <= i < |rest| ensures rest[i].t == ts[p + 1 + i] { assert rest[i] == arrivals[i + 1]; }
  }

  lemma {:induction false} RunTraced(ts: seq<int>, window: nat, max: nat, p: nat, gone: seq<Slot>, seen: seq<Slot>,
                                     at: seq<nat>, arrivals: seq<Arrival>)
    returns (gone': seq<Slot>, at': seq<nat>)
    requires Traced(ts, window, max, p, gone, seen, at) && ReadFrom(ts, p, arrivals)
    ensures gone' + After(seen, window, max, arrivals) == gone + seen + Log(seen, window, max, arrivals)
    ensures Traced(ts, window, max, p + |arrivals|, gone', After(seen, window, max, arrivals), at')
    decreases |arrivals|
  {
    if arrivals == [] {
      gone', at' := gone, at;
    } else {
      var a := arrivals[0];
      var (next, first) := Deliver(seen, window, max, a.id, a.t);
      var entry := if first then [Slot(a.id, a.t + window)] else [];
      RestReadFrom(ts, p, arrivals);
      var mid, so := DeliverTraced(ts, window, max, p, gone, seen, at, a.id);
      gone', at' := RunTraced(ts, window, max, p + 1, mid, next, so, arrivals[1..]);
      LogUnfolds(seen, window, max, arrivals);
      Joined(gone + seen, entry, mid + next, Log(next, window, max, arrivals[1..]));
    }
  }

  lemma LogUnfolds(seen: seq<Slot>, window: nat, max: nat, arrivals: seq<Arrival>)
    requires arrivals != []
    ensures var a := arrivals[0];
            var (next, first) := Deliver(seen, window, max, a.id, a.t);
            && Log(seen, window, max, arrivals)
               == (if first then [Slot(a.id, a.t + window)] else []) + Log(next, window, max, arrivals[1..])
            && After(seen, window, max, arrivals) == After(next, window, max, arrivals[1..])
  {
  }

  lemma Joined(log: seq<Slot>, entry: seq<Slot>, more: seq<Slot>, later: seq<Slot>)
    requires more == log + entry
    ensures more + later == log + (entry + later)
  {
  }

  /** Every run's log is traced. */
  lemma RunIsTraced(window: nat, max: nat, arrivals: seq<Arrival>, ts: seq<int>) returns (gone: seq<Slot>, at: seq<nat>)
    requires ReadFrom(ts, 0, arrivals)
    ensures gone + After([], window, max, arrivals) == Log([], window, max, arrivals)
    ensures Traced(ts, window, max, |arrivals|, gone, After([], window, max, arrivals), at)
  {
    var none: seq<Slot> := [];
    gone, at := RunTraced(ts, window, max, 0, none, none, [], arrivals);
    assert none + none + Log(none, window, max, arrivals) == Log(none, window, max, arrivals);
  }

  // ------------------------------------------------------------------------- any clock

  /** One more arrival, read at p: suppressed if its slot has not lapsed at any reading since, and only if it is
      shielded. */
  lemma TraceDecides(ts: seq<int>, window: nat, max: nat, p: nat, gone: seq<Slot>, seen: seq<Slot>, at: seq<nat>,
                     id: string)
    requires Traced(ts, window, max, p, gone, seen, at) && p < |ts|
    ensures var (log, suppressed) := (gone + seen, !Deliver(seen, window, max, id, ts[p]).1);
            && (forall k :: |log| - max <= k && 0 <= k < |log| && log[k].id == id ==>
                  LapsedSince(ts, p + 1, log[k], at[k]) || suppressed)
            && (suppressed ==> Shielded(log, max, id, ts[p]))
  {
    var gone' := SweptTraced(ts, window, max, p, gone, seen, at);
    var live := Sweep(seen, ts[p]);
    var log := gone' + live;
    forall k | |log| - max <= k && 0 <= k < |log| && log[k].id == id && !LapsedSince(ts, p + 1, log[k], at[k])
      ensures Holds(live, id)
    {
      assert k >= |gone'|;
      assert live[k - |gone'|] == log[k];
    }
    if Holds(live, id) {
      var i :| 0 <= i < |live| && live[i].id == id;
      assert log[|gone'| + i] == live[i] && log[|gone'|] == live[0];
    }
  }

  predicate Within(arrivals: seq<Arrival>, high: int) { forall i :: 0 <= i < |arrivals| ==> arrivals[i].t <= high }

  /** Whatever the clock does: an id is suppressed while it is among the last `max` first deliveries and its window is
      open at every time yet observed; and only while it, or a first delivery still held before it, has its window
      open. */
  lemma AnyClock(window: nat, max: nat, arrivals: seq<Arrival>, id: string, t: int, high: int)
    requires Within(arrivals, high) && t <= high
    ensures var (seen, log) := (After([], window, max, arrivals), Log([], window, max, arrivals));
            && (Suppressed(log, max, id, high) ==> !Deliver(seen, window, max, id, t).1)
            && (!Deliver(seen, window, max, id, t).1 ==> Shielded(log, max, id, t))
  {
    var ts := Times(arrivals) + [t];
    var gone, at := RunIsTraced(window, max, arrivals, ts);
    TraceDecides(ts, window, max, |arrivals|, gone, After([], window, max, arrivals), at, id);
    if Suppressed(Log([], window, max, arrivals), max, id, high) {
      NotLapsedWithin(ts, |arrivals|, gone + After([], window, max, arrivals), max, at, id, high);
    }
  }

  /** What is still open at the latest time observed has lapsed at no reading. */
  lemma NotLapsedWithin(ts: seq<int>, n: nat, log: seq<Slot>, max: nat, at: seq<nat>, id: string, high: int)
    requires |ts| == n + 1 && |at| == |log| && forall i :: 0 <= i < |ts| ==> ts[i] <= high
    requires Suppressed(log, max, id, high)
    ensures exists k :: |log| - max <= k && 0 <= k < |log| && log[k].id == id && !LapsedSince(ts, n + 1, log[k], at[k])
  {
    var k :| |log| - max <= k && 0 <= k < |log| && log[k].id == id && log[k].exp > high;
    assert !LapsedSince(ts, n + 1, log[k], at[k]);
  }

  // ------------------------------------------------------------------ the exact condition

  /** A reading back inside the window of an earlier one, after one beyond it. With no window at all the first two may
      be one reading, here, and the last two below. */
  predicate ReentersAt(ts: seq<int>, window: nat, i: nat, j: nat, k: nat) {
    i <= j < k < |ts| && ts[k] < ts[i] + window <= ts[j]
  }

  /** A reading beyond the window of the later of two others and inside that of the earlier. */
  predicate OutlivesAt(ts: seq<int>, window: nat, i: nat, j: nat, k: nat) {
    i < j <= k < |ts| && ts[j] + window <= ts[k] < ts[i] + window
  }

  predicate Reenters(ts: seq<int>, window: nat) {
    exists i: nat, j: nat, k: nat | i <= j <= k < |ts| :: ReentersAt(ts, window, i, j, k)
  }

  predicate Outlives(ts: seq<int>, window: nat) {
    exists i: nat, j: nat, k: nat | i <= j <= k < |ts| :: OutlivesAt(ts, window, i, j, k)
  }

  /** An arrival after these is suppressed exactly when its id is among the newest first deliveries and still in its
      window. */
  predicate LogDecides(window: nat, max: nat, arrivals: seq<Arrival>, last: Arrival) {
    !Deliver(After([], window, max, arrivals), window, max, last.id, last.t).1
    <==> Suppressed(Log([], window, max, arrivals), max, last.id, last.t)
  }

  lemma NotLapsed(ts: seq<int>, window: nat, n: nat, s: Slot, i: nat)
    requires |ts| == n + 1 && LoggedAt(ts, window, n, s, i) && s.exp > ts[n] && !Reenters(ts, window)
    ensures !LapsedSince(ts, n + 1, s, i)
  {
    forall j | i < j < n + 1 ensures s.exp > ts[j] { assert !ReentersAt(ts, window, i, j, n); }
  }

  lemma NotOutlived(ts: seq<int>, window: nat, n: nat, older: Slot, i: nat, s: Slot, j: nat)
    requires |ts| == n + 1 && LoggedAt(ts, window, n, older, i) && LoggedAt(ts, window, n, s, j) && i <= j
    requires older.exp > ts[n] && !Outlives(ts, window)
    ensures s.exp > ts[n]
  {
    assert !OutlivesAt(ts, window, i, j, n);
  }

  lemma SteadyTraceDecides(ts: seq<int>, window: nat, max: nat, n: nat, gone: seq<Slot>, seen: seq<Slot>, at: seq<nat>,
                           id: string)
    requires |ts| == n + 1 && Traced(ts, window, max, n, gone, seen, at)
    requires !Reenters(ts, window) && !Outlives(ts, window)
    ensures !Deliver(seen, window, max, id, ts[n]).1 <==> Suppressed(gone + seen, max, id, ts[n])
  {
    var (log, t) := (gone + seen, ts[n]);
    TraceDecides(ts, window, max, n, gone, seen, at, id);
    if k :| |log| - max <= k && 0 <= k < |log| && log[k].id == id && log[k].exp > t {
      NotLapsed(ts, window, n, log[k], at[k]);
    } else if Shielded(log, max, id, t) {
      var j, k :| |log| - max <= j && 0 <= j <= k < |log| && log[k].id == id && log[j].exp > t;
      NotOutlived(ts, window, n, log[j], at[j], log[k], at[k]);
      assert false;
    }
  }

  lemma SteadyClockDecides(window: nat, max: nat, arrivals: seq<Arrival>, last: Arrival)
    requires !Reenters(Times(arrivals) + [last.t], window) && !Outlives(Times(arrivals) + [last.t], window)
    ensures LogDecides(window, max, arrivals, last)
  {
    var ts := Times(arrivals) + [last.t];
    var gone, at := RunIsTraced(window, max, arrivals, ts);
    SteadyTraceDecides(ts, window, max, |arrivals|, gone, After([], window, max, arrivals), at, last.id);
  }

  /** Under a clock that does not run backwards in particular: an id is delivered again exactly once its window has
      passed or the ceiling's worth of other first deliveries has pushed it out. */
  lemma DuplicateIff(window: nat, max: nat, arrivals: seq<Arrival>, id: string, t: int)
    requires Rising(Times(arrivals) + [t])
    ensures !Deliver(After([], window, max, arrivals), window, max, id, t).1
       <==> Suppressed(Log([], window, max, arrivals), max, id, t)
  {
    var ts := Times(arrivals) + [t];
    forall i: nat, j: nat, k: nat | i <= j <= k < |ts|
      ensures !ReentersAt(ts, window, i, j, k) && !OutlivesAt(ts, window, i, j, k)
    {
    }
    SteadyClockDecides(window, max, arrivals, Arrival(id, t));
  }

  /** Two arrivals of different ids, the first still held at the second or not. */
  lemma TwoArrivals(window: nat, max: nat, first: string, second: string, a: int, b: int)
    requires 2 <= max && first != second
    ensures var arrivals := [Arrival(first, a), Arrival(second, b)];
            var (x, y) := (Slot(first, a + window), Slot(second, b + window));
            && Log([], window, max, arrivals) == [x, y]
            && After([], window, max, arrivals) == if b < a + window then [x, y] else [y]
  {
    var arrivals := [Arrival(first, a), Arrival(second, b)];
    var (x, y) := (Slot(first, a + window), Slot(second, b + window));
    var empty: seq<Slot> := [];
    var rest: seq<Arrival> := arrivals[1..];
    var none: seq<Arrival> := rest[1..];
    assert rest == [arrivals[1]] && none == [];
    assert empty + [x] == [x] && empty + [y] == [y] && [x] + [y] == [x, y];
    assert Deliver(empty, window, max, first, a) == ([x], true);
    assert [x][1..] == empty;
    assert Deliver([x], window, max, second, b) == (if b < a + window then [x, y] else [y], true);
    LogUnfolds(empty, window, max, arrivals);
    LogUnfolds([x], window, max, rest);
  }

  /** The clock set back into the first id's window after a reading beyond it: the first id is delivered again. */
  lemma SweptTooSoon(window: nat, max: nat, first: string, second: string, a: int, b: int, c: int)
    requires 2 <= max && first != second && c < a + window <= b
    ensures var arrivals := [Arrival(first, a), Arrival(second, b)];
            && Deliver(After([], window, max, arrivals), window, max, first, c).1
            && Suppressed(Log([], window, max, arrivals), max, first, c)
  {
    TwoArrivals(window, max, first, second, a, b);
    var log := Log([], window, max, [Arrival(first, a), Arrival(second, b)]);
    assert log[0].id == first;
  }

  /** The second id logged under an earlier reading than the first: held behind it, it suppresses its id once lapsed. */
  lemma LapsedYetSuppressed(window: nat, max: nat, first: string, second: string, a: int, b: int, c: int)
    requires 2 <= max && first != second && b + window <= c < a + window
    ensures var arrivals := [Arrival(first, a), Arrival(second, b)];
            && !Deliver(After([], window, max, arrivals), window, max, second, c).1
            && !Suppressed(Log([], window, max, arrivals), max, second, c)
  {
    TwoArrivals(window, max, first, second, a, b);
    var held := After([], window, max, [Arrival(first, a), Arrival(second, b)]);
    assert held[1].id == second;
  }

  /** What a store of at most one slot holds of its log. */
  function Newest(log: seq<Slot>, max: nat): seq<Slot> { if max == 0 || log == [] then [] else [log[|log| - 1]] }

  lemma NewestAfter(log: seq<Slot>, max: nat, entry: seq<Slot>)
    requires |entry| <= 1
    ensures Newest(log + entry, max) == if entry == [] || max == 0 then Newest(log, max) else entry
  {
    assert entry == [] ==> log + entry == log;
  }

  lemma OneDelivery(window: nat, max: nat, seen: seq<Slot>, a: Arrival)
    requires |seen| <= max <= 1
    ensures var (next, first) := Deliver(seen, window, max, a.id, a.t);
            next == if !first then seen else if max == 0 then [] else [Slot(a.id, a.t + window)]
  {
    var slot := Slot(a.id, a.t + window);
    var live := Sweep(seen, a.t);
    assert seen != [] ==> seen[1..] == [];
    assert live == seen || live == [];
    var pushed := TrimSplits(live + [slot], max);
    var kept := Trim(live + [slot], max);
    assert (pushed + kept)[|live|] == slot;
    assert max == 1 ==> kept == [slot];
  }

  lemma OneGrows(window: nat, max: nat, log: seq<Slot>, a: Arrival) returns (longer: seq<Slot>)
    requires max <= 1
    ensures var (next, first) := Deliver(Newest(log, max), window, max, a.id, a.t);
            && longer == log + (if first then [Slot(a.id, a.t + window)] else [])
            && next == Newest(longer, max)
  {
    var entry := if Deliver(Newest(log, max), window, max, a.id, a.t).1 then [Slot(a.id, a.t + window)] else [];
    OneDelivery(window, max, Newest(log, max), a);
    NewestAfter(log, max, entry);
    longer := log + entry;
  }

  lemma OneStep(window: nat, max: nat, log: seq<Slot>, arrivals: seq<Arrival>) returns (longer: seq<Slot>)
    requires max <= 1 && arrivals != []
    ensures var (seen, next) := (Newest(log, max), Newest(longer, max));
            && After(seen, window, max, arrivals) == After(next, window, max, arrivals[1..])
            && log + Log(seen, window, max, arrivals) == longer + Log(next, window, max, arrivals[1..])
  {
    var (seen, a) := (Newest(log, max), arrivals[0]);
    longer := OneGrows(window, max, log, a);
    LogUnfolds(seen, window, max, arrivals);
    var (next, first) := Deliver(seen, window, max, a.id, a.t);
    var entry := if first then [Slot(a.id, a.t + window)] else [];
    Joined(log, entry, longer, Log(next, window, max, arrivals[1..]));
  }

  lemma {:induction false} OneSlot(window: nat, max: nat, log: seq<Slot>, arrivals: seq<Arrival>)
    requires max <= 1
    ensures var seen := Newest(log, max);
            After(seen, window, max, arrivals) == Newest(log + Log(seen, window, max, arrivals), max)
    decreases |arrivals|
  {
    if arrivals == [] {
      assert log + Log(Newest(log, max), window, max, arrivals) == log;
    } else {
      var longer := OneStep(window, max, log, arrivals);
      OneSlot(window, max, longer, arrivals[1..]);
    }
  }

  lemma NewestDecides(window: nat, max: nat, log: seq<Slot>, id: string, t: int)
    requires max <= 1
    ensures !Deliver(Newest(log, max), window, max, id, t).1 <==> Suppressed(log, max, id, t)
  {
    var seen := Newest(log, max);
    assert seen != [] ==> seen[1..] == [];
  }

  lemma OneSlotDecides(window: nat, max: nat, arrivals: seq<Arrival>, last: Arrival)
    requires max <= 1
    ensures LogDecides(window, max, arrivals, last)
  {
    var none: seq<Slot> := [];
    OneSlot(window, max, none, arrivals);
    assert none + Log(none, window, max, arrivals) == Log(none, window, max, arrivals);
    NewestDecides(window, max, Log(none, window, max, arrivals), last.id, last.t);
  }

  /** Arrivals that fall on these readings. */
  function Arriving(ts: seq<int>, at: seq<nat>, ids: seq<string>): (r: seq<Arrival>)
    requires Orderly(at, |ts|) && |ids| == |at|
    ensures |r| == |at| && forall k :: 0 <= k < |at| ==> r[k] == Arrival(ids[k], ts[at[k]])
  {
    seq(|at|, k requires 0 <= k < |at| && Orderly(at, |ts|) && |ids| == |at| => Arrival(ids[k], ts[at[k]]))
  }

  predicate LastDecided(window: nat, max: nat, arrivals: seq<Arrival>) {
    arrivals != [] ==> var n := |arrivals| - 1; LogDecides(window, max, arrivals[..n], arrivals[n])
  }

  /** On these readings suppression is what the log says, whatever ids arrive and however many on each. */
  ghost predicate Exact(ts: seq<int>, window: nat, max: nat) {
    forall at: seq<nat>, ids: seq<string> | Orderly(at, |ts|) && |ids| == |at| ::
      LastDecided(window, max, Arriving(ts, at, ids))
  }

  /** Exactly the readings, if the store has room for two ids at all, that neither reenter nor outlive a window. */
  lemma SuppressionIff(ts: seq<int>, window: nat, max: nat)
    ensures Exact(ts, window, max) <==> max < 2 || (!Reenters(ts, window) && !Outlives(ts, window))
  {
    if max < 2 || (!Reenters(ts, window) && !Outlives(ts, window)) {
      forall at: seq<nat>, ids: seq<string> | Orderly(at, |ts|) && |ids| == |at|
        ensures LastDecided(window, max, Arriving(ts, at, ids))
      {
        LastIsDecided(ts, window, max, at, ids);
      }
    } else if Reenters(ts, window) {
      var i: nat, j: nat, k: nat :| i <= j <= k < |ts| && ReentersAt(ts, window, i, j, k);
      SweptTooSoon(window, max, "a", "b", ts[i], ts[j], ts[k]);
      ThreeArrivals(ts, window, max, [i, j, k], ["a", "b", "a"]);
    } else {
      var i: nat, j: nat, k: nat :| i <= j <= k < |ts| && OutlivesAt(ts, window, i, j, k);
      LapsedYetSuppressed(window, max, "a", "b", ts[i], ts[j], ts[k]);
      ThreeArrivals(ts, window, max, [i, j, k], ["a", "b", "b"]);
    }
  }

  lemma ThreeArrivals(ts: seq<int>, window: nat, max: nat, at: seq<nat>, ids: seq<string>)
    requires |at| == 3 == |ids| && Orderly(at, |ts|)
    requires var first := [Arrival(ids[0], ts[at[0]]), Arrival(ids[1], ts[at[1]])];
             !LogDecides(window, max, first, Arrival(ids[2], ts[at[2]]))
    ensures !Exact(ts, window, max)
  {
    var arrivals := Arriving(ts, at, ids);
    assert arrivals[..2] == [Arrival(ids[0], ts[at[0]]), Arrival(ids[1], ts[at[1]])];
    assert !LastDecided(window, max, arrivals);
  }

  lemma LastIsDecided(ts: seq<int>, window: nat, max: nat, at: seq<nat>, ids: seq<string>)
    requires Orderly(at, |ts|) && |ids| == |at|
    requires max < 2 || (!Reenters(ts, window) && !Outlives(ts, window))
    ensures LastDecided(window, max, Arriving(ts, at, ids))
  {
    var arrivals := Arriving(ts, at, ids);
    if arrivals != [] {
      var n := |arrivals| - 1;
      if max < 2 {
        OneSlotDecides(window, max, arrivals[..n], arrivals[n]);
      } else {
        var read := Times(arrivals[..n]) + [arrivals[n].t];
        assert read == Read(ts, at);
        ReadIsSteady(ts, window, at);
        SteadyClockDecides(window, max, arrivals[..n], arrivals[n]);
      }
    }
  }

  lemma ReadIsSteady(ts: seq<int>, window: nat, at: seq<nat>)
    requires Orderly(at, |ts|) && !Reenters(ts, window) && !Outlives(ts, window)
    ensures !Reenters(Read(ts, at), window) && !Outlives(Read(ts, at), window)
  {
    var read := Read(ts, at);
    forall i: nat, j: nat, k: nat | i <= j <= k < |read|
      ensures !ReentersAt(read, window, i, j, k) && !OutlivesAt(read, window, i, j, k)
    {
      assert at[i] <= at[j] <= at[k];
      assert !ReentersAt(ts, window, at[i], at[j], at[k]) && !OutlivesAt(ts, window, at[i], at[j], at[k]);
    }
  }
}
