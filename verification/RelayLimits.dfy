/** How much relaying one plugin does at once, and how often for one caller. */
module RelayLimits {
  import opened JsText
  import opened Wrappers
  import opened Readings

  const WINDOW: int := 10_000
  const MAX_PER_WINDOW: nat := 60
  const MAX_IN_FLIGHT: nat := 8
  const MAX_PER_CALLER: nat := 2

  function Recent(ats: seq<int>, t: int): (r: seq<int>)
    ensures |r| <= |ats|
  {
    if ats == [] then []
    else if t - ats[0] < WINDOW then [ats[0]] + Recent(ats[1..], t)
    else Recent(ats[1..], t)
  }

  datatype CallerKey = CallerKey(text: Text)

  class RelayLimits {
    var inFlight: nat
    var inFlightByCaller: map<CallerKey, nat>
    var relays: map<CallerKey, seq<int>>
    /** Whose work is under way: a caller's, or this machine's own. */
    ghost var active: multiset<Option<CallerKey>>

    /** The counters are exactly the work under way, within both ceilings, and no zero is kept. */
    ghost predicate Valid()
      reads this
    {
      && inFlight == |active| <= MAX_IN_FLIGHT
      && (forall k :: (if k in inFlightByCaller then inFlightByCaller[k] else 0) == active[Some(k)])
      && (forall k :: k in inFlightByCaller ==> 0 < inFlightByCaller[k] <= MAX_PER_CALLER)
    }

    constructor ()
      ensures Valid() && active == multiset{} && relays == map[]
    {
      inFlight, inFlightByCaller, relays, active := 0, map[], map[], multiset{};
    }

    /** Take a slot, unless the plugin or this caller has all it may have. */
    method Enter(key: Option<CallerKey>) returns (ok: bool)
      requires Valid()
      modifies this`inFlight, this`inFlightByCaller, this`active
      ensures Valid()
      ensures ok <==> |old(active)| < MAX_IN_FLIGHT && (key.Some? ==> old(active)[key] < MAX_PER_CALLER)
      ensures active == if ok then old(active) + multiset{key} else old(active)
    {
      var callerActive := if key.Some? && key.value in inFlightByCaller then inFlightByCaller[key.value] else 0;
      if inFlight >= MAX_IN_FLIGHT || callerActive >= MAX_PER_CALLER { return false; }
      inFlight := inFlight + 1;
      if key.Some? { inFlightByCaller := inFlightByCaller[key.value := callerActive + 1]; }
      active := active + multiset{key};
      ok := true;
    }

    /** Give the slot back, whether the work returned or threw. */
    method Leave(key: Option<CallerKey>)
      requires Valid() && key in active
      modifies this`inFlight, this`inFlightByCaller, this`active
      ensures Valid()
      ensures active == old(active) - multiset{key}
    {
      inFlight := inFlight - 1;
      if key.Some? {
        var remaining := inFlightByCaller[key.value] - 1;
        inFlightByCaller := if remaining <= 0 then inFlightByCaller - {key.value}
                            else inFlightByCaller[key.value := remaining];
      }
      active := active - multiset{key};
    }

    /** `withinLimit`. */
    method WithinLimit(key: CallerKey, t: int) returns (ok: bool)
      modifies this`relays
      ensures key in relays && (relays[key], ok) == Limit(if key in old(relays) then old(relays)[key] else [], t)
      ensures forall k ::
              k != key ==> (k in relays <==> k in old(relays)) && (k in relays ==> relays[k] == old(relays)[k])
    {
      var recent := Recent(if key in relays then relays[key] else [], t);
      if |recent| >= MAX_PER_WINDOW {
        relays := relays[key := recent];
        return false;
      }
      relays := relays[key := recent + [t]];
      ok := true;
    }
  }

  function Limit(ats: seq<int>, t: int): (seq<int>, bool) {
    var recent := Recent(ats, t);
    if |recent| >= MAX_PER_WINDOW then (recent, false) else (recent + [t], true)
  }

  // ---------------------------------------------------------------------------- rate

  /** The times of the calls let through. */
  function Admitted(ats: seq<int>, ts: seq<int>): seq<int>
    decreases |ts|
  {
    if ts == [] then []
    else (if Limit(ats, ts[0]).1 then [ts[0]] else []) + Admitted(Limit(ats, ts[0]).0, ts[1..])
  }

  predicate Near(a: int, t: int) { -WINDOW < t - a < WINDOW }

  function NearCount(log: seq<int>, t: int): nat {
    if log == [] then 0 else (if Near(log[0], t) then 1 else 0) + NearCount(log[1..], t)
  }

  function StretchCount(log: seq<int>, from: int): nat {
    if log == [] then 0 else (if from <= log[0] < from + WINDOW then 1 else 0) + StretchCount(log[1..], from)
  }

  /** The promised rate: in any stretch of one window's length, no more calls than the ceiling. */
  ghost predicate RateKept(log: seq<int>) { forall from: int :: StretchCount(log, from) <= MAX_PER_WINDOW }

  /** No call let through has a ceiling's worth of earlier ones less than a window away, on either side. */
  predicate Spread(log: seq<int>) { forall k :: 0 <= k < |log| ==> NearCount(log[..k], log[k]) < MAX_PER_WINDOW }

  /** A reading a window or more later than an earlier one, and then a third near the first again. */
  predicate ReentersAt(ts: seq<int>, i: nat, j: nat, k: nat) {
    i < j < k < |ts| && ts[j] - ts[i] >= WINDOW && Near(ts[i], ts[k])
  }

  predicate Reenters(ts: seq<int>) {
    exists i: nat, j: nat, k: nat | i < j < k < |ts| :: ReentersAt(ts, i, j, k)
  }

  lemma {:induction false} NearConcat(a: seq<int>, b: seq<int>, t: int)
    ensures NearCount(a + b, t) == NearCount(a, t) + NearCount(b, t)
  {
    if a == [] {
      assert a + b == b;
    } else {
      assert (a + b)[1..] == a[1..] + b;
      NearConcat(a[1..], b, t);
    }
  }

  lemma {:induction false} StretchConcat(a: seq<int>, b: seq<int>, from: int)
    ensures StretchCount(a + b, from) == StretchCount(a, from) + StretchCount(b, from)
  {
    if a == [] {
      assert a + b == b;
    } else {
      assert (a + b)[1..] == a[1..] + b;
      StretchConcat(a[1..], b, from);
    }
  }

  lemma {:induction false} RecentConcat(a: seq<int>, b: seq<int>, t: int)
    ensures Recent(a + b, t) == Recent(a, t) + Recent(b, t)
  {
    if a == [] {
      assert a + b == b;
    } else {
      assert (a + b)[1..] == a[1..] + b;
      RecentConcat(a[1..], b, t);
    }
  }

  lemma {:induction false} StretchIsNear(log: seq<int>, from: int, t: int)
    requires from <= t < from + WINDOW
    ensures StretchCount(log, from) <= NearCount(log, t)
  {
    if log != [] { StretchIsNear(log[1..], from, t); }
  }

  lemma {:induction false} SpreadInStretch(log: seq<int>, from: int)
    requires Spread(log)
    ensures StretchCount(log, from) <= MAX_PER_WINDOW
  {
    if log != [] {
      var n := |log| - 1;
      var (before, t) := (log[..n], log[n]);
      assert log == before + [t];
      forall k | 0 <= k < n ensures NearCount(before[..k], before[k]) < MAX_PER_WINDOW {
        assert before[..k] == log[..k];
      }
      StretchConcat(before, [t], from);
      SpreadInStretch(before, from);
      if from <= t < from + WINDOW { StretchIsNear(before, from, t); }
    }
  }

  lemma SpreadMore(log: seq<int>, t: int)
    requires Spread(log) && NearCount(log, t) < MAX_PER_WINDOW
    ensures Spread(log + [t])
  {
    var more := log + [t];
    forall k | 0 <= k < |more| ensures NearCount(more[..k], more[k]) < MAX_PER_WINDOW {
      assert more[..k] == log[..k];
      assert k == |log| ==> log[..k] == log;
    }
  }

  // ------------------------------------------------------------ while no reading reenters

  predicate ReadBefore(ts: seq<int>, p: nat, a: int) { exists i :: 0 <= i < p && i < |ts| && ts[i] == a }

  /** The remembered calls are readings before p, and near any later reading there are as many of them as of all
      calls. */
  ghost predicate Remembers(ts: seq<int>, p: nat, log: seq<int>, mine: seq<int>) {
    && (forall a :: a in mine ==> ReadBefore(ts, p, a))
    && forall k :: p <= k < |ts| ==> NearCount(log, ts[k]) == NearCount(mine, ts[k])
  }

  lemma {:induction false} NearAreRecent(mine: seq<int>, t: int)
    ensures NearCount(mine, t) <= |Recent(mine, t)|
  {
    if mine != [] { NearAreRecent(mine[1..], t); }
  }

  /** Reading p forgets nothing that a later reading is near to. */
  lemma {:induction false} ForgetsNoneNear(ts: seq<int>, p: nat, k: nat, mine: seq<int>)
    requires !Reenters(ts) && p < k < |ts|
    requires forall a :: a in mine ==> ReadBefore(ts, p, a)
    ensures NearCount(Recent(mine, ts[p]), ts[k]) == NearCount(mine, ts[k])
  {
    if mine != [] {
      assert mine[0] in mine;
      assert ReadBefore(ts, p, mine[0]);
      var i :| 0 <= i < p && i < |ts| && ts[i] == mine[0];
      assert !ReentersAt(ts, i, p, k);
      forall a | a in mine[1..] ensures ReadBefore(ts, p, a) { assert a in mine; }
      ForgetsNoneNear(ts, p, k, mine[1..]);
      var rest := Recent(mine[1..], ts[p]);
      assert ([mine[0]] + rest)[1..] == rest;
    }
  }

  lemma {:induction false} RecentAreHeld(mine: seq<int>, t: int)
    ensures forall a :: a in Recent(mine, t) ==> a in mine
  {
    if mine != [] { RecentAreHeld(mine[1..], t); }
  }

  lemma ReadingIsRemembered(ts: seq<int>, p: nat, log: seq<int>, mine: seq<int>, let: bool)
    requires !Reenters(ts) && p < |ts| && Remembers(ts, p, log, mine)
    ensures var more := if let then [ts[p]] else []; Remembers(ts, p + 1, log + more, Recent(mine, ts[p]) + more)
  {
    var (r, more) := (Recent(mine, ts[p]), if let then [ts[p]] else []);
    RecentAreHeld(mine, ts[p]);
    forall k | p + 1 <= k < |ts| ensures NearCount(log + more, ts[k]) == NearCount(r + more, ts[k]) {
      ForgetsNoneNear(ts, p, k, mine);
      NearConcat(log, more, ts[k]);
      NearConcat(r, more, ts[k]);
    }
  }

  /** `log`: the calls let through so far. In memory: `mine` of them, after `junk` from some earlier time. */
  lemma {:induction false} SpreadFrom(ts: seq<int>, p: nat, junk: seq<int>, mine: seq<int>, log: seq<int>)
    requires !Reenters(ts) && p <= |ts| && Remembers(ts, p, log, mine) && Spread(log)
    ensures Spread(log + Admitted(junk + mine, ts[p..]))
    decreases |ts| - p
  {
    if p == |ts| {
      assert log + Admitted(junk + mine, ts[p..]) == log;
    } else {
      var t := ts[p];
      var (was, now) := (Recent(junk, t), Recent(mine, t));
      var let := Limit(junk + mine, t).1;
      var more := if let then [t] else [];
      RecentConcat(junk, mine, t);
      NearAreRecent(mine, t);
      ReadingIsRemembered(ts, p, log, mine, let);
      if let { SpreadMore(log, t); } else { assert log + more == log && now + more == now; }
      assert (was + now) + more == was + (now + more);
      assert ts[p..][1..] == ts[p + 1..];
      SpreadFrom(ts, p + 1, was, now + more, log + more);
      Associative(log, more, Admitted(was + (now + more), ts[p + 1..]));
    }
  }

  lemma Associative(a: seq<int>, b: seq<int>, c: seq<int>)
    ensures (a + b) + c == a + (b + c)
  {
  }

  /** Whatever is remembered from before, calls whose readings do not reenter are let through at the promised rate. */
  lemma RateHoldsUnlessReentered(ats: seq<int>, ts: seq<int>)
    requires !Reenters(ts)
    ensures Spread(Admitted(ats, ts)) && RateKept(Admitted(ats, ts))
  {
    var none: seq<int> := [];
    assert ats + none == ats && ts[0..] == ts && none + Admitted(ats, ts) == Admitted(ats, ts);
    SpreadFrom(ts, 0, ats, none, none);
    forall from: int ensures StretchCount(Admitted(ats, ts), from) <= MAX_PER_WINDOW {
      SpreadInStretch(Admitted(ats, ts), from);
    }
  }

  /** In particular while the clock does not run backwards. */
  lemma RateHolds(ats: seq<int>, ts: seq<int>)
    requires Rising(ts)
    ensures RateKept(Admitted(ats, ts))
  {
    forall i: nat, j: nat, k: nat | i < j < k < |ts| ensures !ReentersAt(ts, i, j, k) {}
    RateHoldsUnlessReentered(ats, ts);
  }

  // ------------------------------------------------------------------- when one does

  function Repeated(t: int, n: nat): (r: seq<int>)
    ensures |r| == n && forall i :: 0 <= i < n ==> r[i] == t
  {
    seq(n, _ => t)
  }

  lemma {:induction false} AllRecent(ats: seq<int>, t: int)
    requires forall i :: 0 <= i < |ats| ==> t - ats[i] < WINDOW
    ensures Recent(ats, t) == ats
  {
    if ats != [] { AllRecent(ats[1..], t); }
  }

  lemma {:induction false} NoneRecent(ats: seq<int>, t: int)
    requires forall i :: 0 <= i < |ats| ==> t - ats[i] >= WINDOW
    ensures Recent(ats, t) == []
  {
    if ats != [] { NoneRecent(ats[1..], t); }
  }

  lemma Unrepeat(t: int, n: nat, rest: seq<int>)
    requires n > 0
    ensures (Repeated(t, n) + rest)[0] == t && (Repeated(t, n) + rest)[1..] == Repeated(t, n - 1) + rest
    ensures Repeated(t, n) + rest == [t] + (Repeated(t, n - 1) + rest)
  {
  }

  lemma {:induction false} BurstIsAdmitted(t: int, held: nat, n: nat, rest: seq<int>)
    requires held + n <= MAX_PER_WINDOW
    ensures Admitted(Repeated(t, held), Repeated(t, n) + rest) == Repeated(t, n) + Admitted(Repeated(t, held + n), rest)
    decreases n
  {
    var ts := Repeated(t, n) + rest;
    if n == 0 {
      assert ts == rest;
      assert Repeated(t, n) + Admitted(Repeated(t, held), rest) == Admitted(Repeated(t, held), rest);
    } else {
      AllRecent(Repeated(t, held), t);
      Unrepeat(t, n, rest);
      Unrepeat(t, n, Admitted(Repeated(t, held + n), rest));
      assert Repeated(t, held) + [t] == Repeated(t, held + 1);
      assert Limit(Repeated(t, held), t) == (Repeated(t, held + 1), true);
      BurstIsAdmitted(t, held + 1, n - 1, rest);
    }
  }

  lemma {:induction false} RepeatedInStretch(t: int, n: nat, from: int)
    requires from <= t < from + WINDOW
    ensures StretchCount(Repeated(t, n), from) == n
  {
    if n > 0 {
      assert Repeated(t, n)[1..] == Repeated(t, n - 1);
      RepeatedInStretch(t, n - 1, from);
    }
  }

  /** A clock set back to near an earlier reading, after one a window later has made it forgotten: sixty calls on the
      first reading, one on the second and one more on the third are all let through. */
  lemma SetBackExceeds(a: int, b: int, c: int)
    requires b - a >= WINDOW && Near(a, c)
    ensures var ts := Repeated(a, MAX_PER_WINDOW) + [b, c]; Admitted([], ts) == ts && !RateKept(Admitted([], ts))
  {
    var (burst, rest) := (Repeated(a, MAX_PER_WINDOW), [b, c]);
    var none: seq<int> := [];
    var last: seq<int> := rest[1..];
    assert Repeated(a, 0) == none && last == [c] && last[1..] == none;
    BurstIsAdmitted(a, 0, MAX_PER_WINDOW, rest);
    NoneRecent(burst, b);
    assert none + [b] == [b] && [b] + [c] == rest;
    assert Limit(burst, b) == ([b], true);
    AllRecent([b], c);
    assert Limit([b], c) == ([b, c], true);
    assert Admitted([b], last) == [c];
    assert Admitted(burst, rest) == [b] + [c] == rest;
    var from := if a < c then a else c;
    RepeatedInStretch(a, MAX_PER_WINDOW, from);
    StretchConcat(burst, rest, from);
    StretchConcat([b], [c], from);
  }

  // ------------------------------------------------------------------ the exact condition

  /** On these readings the rate is kept, however many calls fall on each and whatever is remembered from before. */
  ghost predicate KeepsRate(ts: seq<int>) {
    forall ats: seq<int>, at: seq<nat> | Orderly(at, |ts|) :: RateKept(Admitted(ats, Read(ts, at)))
  }

  /** The promised rate is kept on exactly the readings that do not reenter. */
  lemma RateKeptIff(ts: seq<int>)
    ensures KeepsRate(ts) <==> !Reenters(ts)
  {
    if !Reenters(ts) {
      forall ats: seq<int>, at: seq<nat> | Orderly(at, |ts|) ensures RateKept(Admitted(ats, Read(ts, at))) {
        ReadDoesNotReenter(ts, at);
        RateHoldsUnlessReentered(ats, Read(ts, at));
      }
    } else {
      var i: nat, j: nat, k: nat :| i < j < k < |ts| && ReentersAt(ts, i, j, k);
      var at := seq(MAX_PER_WINDOW, _ => i) + [j, k];
      assert Read(ts, at) == Repeated(ts[i], MAX_PER_WINDOW) + [ts[j], ts[k]];
      SetBackExceeds(ts[i], ts[j], ts[k]);
      assert !RateKept(Admitted([], Read(ts, at)));
    }
  }

  lemma ReadDoesNotReenter(ts: seq<int>, at: seq<nat>)
    requires Orderly(at, |ts|) && !Reenters(ts)
    ensures !Reenters(Read(ts, at))
  {
    var calls := Read(ts, at);
    forall i: nat, j: nat, k: nat | i < j < k < |calls| ensures !ReentersAt(calls, i, j, k) {
      if ReentersAt(calls, i, j, k) {
        assert at[i] <= at[j] <= at[k] && at[i] != at[j] && at[j] != at[k];
        assert ReentersAt(ts, at[i], at[j], at[k]);
      }
    }
  }
}
