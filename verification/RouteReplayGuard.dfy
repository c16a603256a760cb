/** The guard as the daemon holds it: reservations and per-origin counts, swept in place. */
module RouteReplayGuard {
  import opened JsText
  import opened Wrappers
  import opened ReplayGuard
  import opened ReplayGuardProofs

  class RouteReplayGuard {
    const options: Options
    var entries: Slots
    var perOrigin: map<Text, nat>
    var high: Option<int>

    function View(): Guard reads this { Guard(entries, high) }

    /** The counts are exactly the live counts, and no zero is stored. */
    ghost predicate Valid() reads this {
      forall origin: Text ::
        Count(entries, origin) == (if origin in perOrigin then perOrigin[origin] else 0)
        && (origin in perOrigin ==> perOrigin[origin] > 0)
    }

    constructor (o: Options)
      ensures Valid() && options == o && View() == Guard(map[], None)
    {
      options, entries, perOrigin, high := o, map[], map[], None;
      new;
      forall origin: Text ensures Count(entries, origin) == 0 { assert Of(entries, origin) == {}; }
    }

    /** Rebuild from a persisted snapshot: expired, far-future, repeated and over-ceiling lines are skipped. */
    constructor Rehydrate(o: Options, observed: int, lines: seq<Line>)
      ensures Valid() && options == o && View() == Restarted(o, observed, lines)
    {
      options, entries, perOrigin, high := o, map[], map[], Some(observed);
      new;
      forall origin: Text ensures Count(entries, origin) == 0 { assert Of(entries, origin) == {}; }
      for i := 0 to |lines|
        invariant Valid() && high == Some(observed)
        invariant LoadAll(o, entries, observed, lines[i..]) == LoadAll(o, map[], observed, lines)
      {
        assert lines[i..][1..] == lines[i + 1..];
        var l := lines[i];
        if l.Line? && observed <= l.slot.exp <= observed + o.maxValidity + 2 * o.skew
           && l.key !in entries && |entries| < o.maxEntries && Held(l.slot.origin) < o.maxPerOrigin {
          Insert(l.key, l.slot);
        }
      }
      assert lines[|lines|..] == [];
    }

    /** `perOrigin.get(origin) ?? 0`. */
    function Held(origin: Text): (n: nat)
      reads this
      ensures Valid() ==> n == Count(entries, origin)
    {
      if origin in perOrigin then perOrigin[origin] else 0
    }

    method Insert(k: SlotKey, r: Reservation)
      requires Valid() && k !in entries
      modifies this`entries, this`perOrigin
      ensures Valid() && entries == old(entries)[k := r]
    {
      forall origin: Text
        ensures Count(entries[k := r], origin) == Count(entries, origin) + (if r.origin == origin then 1 else 0)
      {
        CountWith(entries, k, r, origin);
      }
      entries := entries[k := r];
      perOrigin := perOrigin[r.origin := (if r.origin in perOrigin then perOrigin[r.origin] else 0) + 1];
    }

    method Remove(k: SlotKey)
      requires Valid() && k in entries
      modifies this`entries, this`perOrigin
      ensures Valid() && entries == old(entries) - {k}
    {
      var origin := entries[k].origin;
      forall x: Text ensures Count(entries - {k}, x) == Count(entries, x) - (if origin == x then 1 else 0) {
        CountWithout(entries, k, x);
      }
      CountWithout(entries, k, origin);
      entries := entries - {k};
      var n := perOrigin[origin];
      perOrigin := if n == 1 then perOrigin - {origin} else perOrigin[origin := n - 1];
    }

    /** Drop reservations whose window, with skew, has fully passed. */
    method Sweep(t: int)
      requires Valid()
      modifies this`entries, this`perOrigin
      ensures Valid() && entries == Live(old(entries), t)
    {
      var todo := entries.Keys;
      while todo != {}
        invariant Valid() && todo <= entries.Keys
        invariant forall k :: k in entries <==> k in old(entries) && (k in todo || old(entries)[k].exp >= t)
        invariant forall k :: k in entries ==> entries[k] == old(entries)[k]
        decreases todo
      {
        var k :| k in todo;
        todo := todo - {k};
        if entries[k].exp < t { Remove(k); }
      }
    }

    method Assess(observed: int, c: Claim, reserve: bool) returns (verdict: Verdict)
      requires Valid()
      modifies this
      ensures Valid()
      ensures (View(), verdict) == ReplayGuard.Assess(options, old(View()), observed, c, reserve)
    {
      var t := Current(high, observed);
      high := Some(t);
      var window := Window(options, c, t);
      if window != Admitted { return window; }
      var key := KeyOf(c);
      var existing := key in entries;
      if existing && entries[key].exp >= t { return Duplicate; }
      if !existing {
        if |entries| >= options.maxEntries {
          Sweep(t);
          if |entries| >= options.maxEntries { return AtCapacity; }
        }
        if Held(c.origin) >= options.maxPerOrigin {
          Sweep(t);
          if Held(c.origin) >= options.maxPerOrigin { return OriginAtCapacity; }
        }
      }
      if !reserve { return Admitted; }
      ghost var before := entries;
      if existing { Remove(key); }
      Insert(key, Reservation(c.expiresAt + options.skew, c.origin));
      assert entries == Reserved(before, options, c);
      verdict := Admitted;
    }

    method Check(observed: int, c: Claim) returns (verdict: Verdict)
      requires Valid()
      modifies this
      ensures Valid() && (View(), verdict) == ReplayGuard.Assess(options, old(View()), observed, c, false)
    {
      verdict := Assess(observed, c, false);
    }

    method Admit(observed: int, c: Claim) returns (verdict: Verdict)
      requires Valid()
      modifies this
      ensures Valid() && (View(), verdict) == ReplayGuard.Assess(options, old(View()), observed, c, true)
    {
      verdict := Assess(observed, c, true);
    }

    method Size(observed: int) returns (n: nat)
      requires Valid()
      modifies this
      ensures Valid() && View() == Swept(old(View()), observed) && n == |View().entries|
    {
      var t := Current(high, observed);
      high := Some(t);
      Sweep(t);
      n := |entries|;
    }

    /** The live reservations, each once. */
    method Snapshot(observed: int) returns (lines: seq<Line>)
      requires Valid()
      modifies this
      ensures Valid() && View() == Swept(old(View()), observed)
      ensures Lists(lines, entries)
    {
      var t := Current(high, observed);
      high := Some(t);
      Sweep(t);
      lines := [];
      var todo := entries.Keys;
      while todo != {}
        invariant todo <= entries.Keys && entries == Live(old(entries), t) && high == Some(t) && Valid()
        invariant forall i :: 0 <= i < |lines| ==>
                    lines[i].Line? && lines[i].key in entries - todo && entries[lines[i].key] == lines[i].slot
        invariant forall i, j :: 0 <= i < j < |lines| ==> lines[i].key != lines[j].key
        invariant forall k :: k in entries && k !in todo ==> Line(k, entries[k]) in lines
        decreases todo
      {
        var k :| k in todo;
        todo := todo - {k};
        lines := lines + [Line(k, entries[k])];
      }
    }
  }
}
