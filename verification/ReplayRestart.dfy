/** At most once, under any clock and across restarts from the persisted snapshot. */
module ReplayRestart {
  import opened JsText
  import opened Wrappers
  import opened ReplayGuard
  import opened ReplayGuardProofs

  /** A guard and the snapshot its last successful persist wrote. */
  datatype Node = Node(guard: Guard, disk: seq<Line>)

  datatype Event =
    | Check(observed: int, claim: Claim)
    | Admit(observed: int, claim: Claim, lines: seq<Line>)
    | Inspect(observed: int)
    | Restart(observed: int)

  function After(o: Options, n: Node, e: Event): Node {
    match e
    case Check(observed, c) => n.(guard := Assess(o, n.guard, observed, c, false).0)
    case Admit(observed, c, lines) =>
      var (g, v) := Assess(o, n.guard, observed, c, true);
      Node(g, if v == Admitted then lines else n.disk)
    case Inspect(observed) => n.(guard := Swept(n.guard, observed))
    case Restart(observed) => n.(guard := Restarted(o, observed, n.disk))
  }

  predicate Admits(o: Options, n: Node, e: Event) {
    e.Admit? && Assess(o, n.guard, e.observed, e.claim, true).1 == Admitted
  }

  /** The snapshot an admission persists: its live reservations, in whatever order. */
  ghost predicate Saves(o: Options, n: Node, e: Event) {
    Admits(o, n, e) ==>
      var g := Assess(o, n.guard, e.observed, e.claim, true).0;
      Lists(e.lines, Live(g.entries, g.high.value))
  }

  /** Every admission's persist succeeds, ids are NUL-free, and no restart's clock is behind the high-water mark. */
  ghost predicate Proper(o: Options, n: Node, e: Event) {
    && Saves(o, n, e)
    && (e.Check? || e.Admit? ==> NulFree(e.claim.origin))
    && (e.Restart? && n.guard.high.Some? ==> n.guard.high.value <= e.observed)
  }

  function Runs(o: Options, n: Node, es: seq<Event>): Node
    decreases |es|
  {
    if es == [] then n else Runs(o, After(o, n, es[0]), es[1..])
  }

  ghost predicate AllProper(o: Options, n: Node, es: seq<Event>)
    decreases |es|
  {
    es == [] || (Proper(o, n, es[0]) && AllProper(o, After(o, n, es[0]), es[1..]))
  }

  const FRESH := Node(Guard(map[], None), [])

  // --------------------------------------------------------------------- invariant

  /** No genuine reservation lies beyond what a reload accepts. */
  ghost predicate Bounded(o: Options, g: Guard) {
    forall k :: k in g.entries ==> g.high.Some? && g.entries[k].exp <= g.high.value + o.maxValidity + 2 * o.skew
  }

  /** What is still live is on disk, and what is on disk fits and agrees. */
  ghost predicate Backed(o: Options, n: Node) {
    exists saved :: BackedBy(o, n, saved)
  }

  ghost predicate SavedCovers(saved: Slots, g: Guard, o: Options) {
    && (forall k :: k in saved ==> g.high.Some? && saved[k].exp <= g.high.value + o.maxValidity + 2 * o.skew)
    && (forall k :: k in g.entries && g.high.Some? && g.high.value <= g.entries[k].exp ==>
          k in saved && saved[k] == g.entries[k])
  }

  ghost predicate NodeInv(o: Options, n: Node) {
    && WithinCeilings(o, n.guard.entries) && KeysAgree(n.guard.entries)
    && Bounded(o, n.guard)
    && Backed(o, n)
  }

  lemma FreshInv(o: Options)
    ensures NodeInv(o, FRESH)
  {
    var none: Slots := map[];
    CeilingsOfNothing(o);
    assert BackedBy(o, FRESH, none);
  }

  lemma CeilingsOfNothing(o: Options)
    ensures var none: Slots := map[]; WithinCeilings(o, none) && KeysAgree(none)
  {
    var none: Slots := map[];
    forall origin: Text ensures Count(none, origin) <= o.maxPerOrigin { assert Of(none, origin) == {}; }
  }

  // ----------------------------------------------------------------------- reload

  /** Reloading a snapshot keeps exactly what is still live at the restart clock. */
  lemma {:induction false} LoadAllKeepsLive(o: Options, saved: Slots, t: int, lines: seq<Line>, done: seq<Line>,
                                            e: Slots)
    requires Lists(done + lines, saved) && WithinCeilings(o, saved)
    requires forall k :: k in saved ==> saved[k].exp <= t + o.maxValidity + 2 * o.skew
    requires forall k :: k in e <==> k in saved && t <= saved[k].exp && Line(k, saved[k]) in done
    requires forall k :: k in e ==> e[k] == saved[k]
    ensures LoadAll(o, e, t, lines) == Live(saved, t)
    decreases |lines|
  {
    var all := done + lines;
    if lines == [] {
      assert all == done;
      forall k ensures k in e <==> k in Live(saved, t) {}
    } else {
      var l := lines[0];
      assert all[|done|] == l && l.key in saved && saved[l.key] == l.slot;
      assert (done + [l]) + lines[1..] == all;
      forall i | 0 <= i < |done| ensures done[i].Line? && done[i].key != l.key {
        assert done[i] == all[i] && all[|done|] == l;
      }
      assert l.key !in e;
      var e' := if Loadable(o, e, t, l) then e[l.key := l.slot] else e;
      if t <= l.slot.exp { RoomToLoad(o, saved, e, l); }
      forall k ensures k in e' <==> k in saved && t <= saved[k].exp && Line(k, saved[k]) in done + [l] {
        if k == l.key { assert Line(k, saved[k]) == l; }
      }
      LoadAllKeepsLive(o, saved, t, lines[1..], done + [l], e');
    }
  }

  lemma RoomToLoad(o: Options, saved: Slots, e: Slots, l: Line)
    requires WithinCeilings(o, saved) && l.Line? && l.key in saved && saved[l.key] == l.slot && l.key !in e
    requires forall k :: k in e ==> k in saved && e[k] == saved[k]
    ensures |e| < o.maxEntries && Count(e, l.slot.origin) < o.maxPerOrigin
  {
    CountWithout(saved, l.key, l.slot.origin);
    CountBelow(e, saved - {l.key}, l.slot.origin);
  }

  /** The saved reservations some snapshot stands for. */
  ghost predicate BackedBy(o: Options, n: Node, saved: Slots) {
    Lists(n.disk, saved) && WithinCeilings(o, saved) && KeysAgree(saved) && SavedCovers(saved, n.guard, o)
  }

  lemma RestartLoads(o: Options, n: Node, observed: int, saved: Slots)
    requires BackedBy(o, n, saved) && (n.guard.high.Some? ==> n.guard.high.value <= observed)
    ensures Restarted(o, observed, n.disk).entries == Live(saved, observed)
  {
    assert [] + n.disk == n.disk;
    LoadAllKeepsLive(o, saved, observed, n.disk, [], map[]);
  }

  lemma RestartFacts(o: Options, n: Node, observed: int)
    requires NodeInv(o, n) && (n.guard.high.Some? ==> n.guard.high.value <= observed)
    ensures NodeInv(o, After(o, n, Restart(observed)))
    ensures var g := Restarted(o, observed, n.disk);
            forall k :: k in n.guard.entries && observed <= n.guard.entries[k].exp ==>
              k in g.entries && g.entries[k] == n.guard.entries[k]
  {
    var saved :| BackedBy(o, n, saved);
    var g := Restarted(o, observed, n.disk);
    RestartLoads(o, n, observed, saved);
    LiveKeepsCeilings(o, saved, observed);
    assert BackedBy(o, n.(guard := g), saved);
  }

  lemma AssessBounds(o: Options, g: Guard, observed: int, c: Claim, reserve: bool)
    requires Bounded(o, g)
    ensures Bounded(o, Assess(o, g, observed, c, reserve).0)
    ensures var (g', v) := Assess(o, g, observed, c, reserve);
            v != Admitted || !reserve ==>
              forall k :: k in g'.entries ==> k in g.entries && g'.entries[k] == g.entries[k]
  {}

  /** A decision that reserves nothing needs nothing new on disk. */
  lemma StillBacked(o: Options, n: Node, g: Guard)
    requires Backed(o, n) && g.high.Some? && (n.guard.high.Some? ==> n.guard.high.value <= g.high.value)
    requires forall k :: k in g.entries ==> k in n.guard.entries && g.entries[k] == n.guard.entries[k]
    requires n.guard.high.None? ==> n.guard.entries == map[]
    ensures Backed(o, n.(guard := g))
  {
    var saved :| BackedBy(o, n, saved);
    assert BackedBy(o, n.(guard := g), saved);
  }

  lemma NewlyBacked(o: Options, n: Node, lines: seq<Line>, g: Guard)
    requires g.high.Some? && Bounded(o, g) && WithinCeilings(o, g.entries) && KeysAgree(g.entries)
    requires Lists(lines, Live(g.entries, g.high.value))
    ensures Backed(o, Node(g, lines))
  {
    var live := Live(g.entries, g.high.value);
    LiveKeepsCeilings(o, g.entries, g.high.value);
    assert BackedBy(o, Node(g, lines), live);
  }

  lemma AdmitKeepsInv(o: Options, n: Node, e: Event)
    requires NodeInv(o, n) && Proper(o, n, e) && (e.Check? || e.Admit?)
    ensures NodeInv(o, After(o, n, e))
  {
    var reserve := e.Admit?;
    var (g, v) := Assess(o, n.guard, e.observed, e.claim, reserve);
    AssessKeepsCeilings(o, n.guard, e.observed, e.claim, reserve);
    AssessBounds(o, n.guard, e.observed, e.claim, reserve);
    if v == Admitted && reserve {
      NewlyBacked(o, n, e.lines, g);
    } else {
      assert n.guard.high.None? ==> n.guard.entries.Keys == {};
      StillBacked(o, n, g);
    }
  }

  lemma EventKeepsInv(o: Options, n: Node, e: Event)
    requires NodeInv(o, n) && Proper(o, n, e)
    ensures NodeInv(o, After(o, n, e))
  {
    match e
    case Restart(observed) => RestartFacts(o, n, observed);
    case Inspect(observed) =>
      LiveKeepsCeilings(o, n.guard.entries, Current(n.guard.high, observed));
      assert n.guard.high.None? ==> n.guard.entries.Keys == {};
      StillBacked(o, n, Swept(n.guard, observed));
    case _ => AdmitKeepsInv(o, n, e);
  }

  lemma {:induction false} RunKeepsInv(o: Options, n: Node, es: seq<Event>)
    requires NodeInv(o, n) && AllProper(o, n, es)
    ensures NodeInv(o, Runs(o, n, es))
    decreases |es|
  {
    if es != [] {
      EventKeepsInv(o, n, es[0]);
      RunKeepsInv(o, After(o, n, es[0]), es[1..]);
    }
  }

  // ------------------------------------------------------------------ at most once

  /** Nothing in this slot expiring at or before `expiresAt` can be admitted any more. */
  ghost predicate Spent(o: Options, g: Guard, k: SlotKey, expiresAt: int) {
    || (k in g.entries && expiresAt + o.skew <= g.entries[k].exp)
    || (g.high.Some? && expiresAt + o.skew < g.high.value)
  }

  lemma SpentRefuses(o: Options, g: Guard, observed: int, c: Claim, reserve: bool, expiresAt: int)
    requires Spent(o, g, KeyOf(c), expiresAt)
    requires Assess(o, g, observed, c, reserve).1 == Admitted
    ensures expiresAt < c.expiresAt
  {}

  lemma AdmissionSpends(o: Options, g: Guard, observed: int, c: Claim)
    requires Assess(o, g, observed, c, true).1 == Admitted
    ensures Spent(o, Assess(o, g, observed, c, true).0, KeyOf(c), c.expiresAt)
  {}

  lemma DecisionKeepsSpent(o: Options, g: Guard, observed: int, c: Claim, reserve: bool, k: SlotKey, expiresAt: int)
    requires Spent(o, g, k, expiresAt)
    ensures Spent(o, Assess(o, g, observed, c, reserve).0, k, expiresAt)
  {
    if KeyOf(c) == k && Assess(o, g, observed, c, reserve).1 == Admitted {
      SpentRefuses(o, g, observed, c, reserve, expiresAt);
    }
  }

  lemma SpentStays(o: Options, n: Node, e: Event, k: SlotKey, expiresAt: int)
    requires NodeInv(o, n) && Proper(o, n, e) && Spent(o, n.guard, k, expiresAt)
    ensures Spent(o, After(o, n, e).guard, k, expiresAt)
  {
    match e
    case Restart(observed) => RestartFacts(o, n, observed);
    case Inspect(observed) =>
    case Check(observed, c) => DecisionKeepsSpent(o, n.guard, observed, c, false, k, expiresAt);
    case Admit(observed, c, _) => DecisionKeepsSpent(o, n.guard, observed, c, true, k, expiresAt);
  }

  lemma {:induction false} SpentStaysThroughout(o: Options, n: Node, es: seq<Event>, k: SlotKey, expiresAt: int)
    requires NodeInv(o, n) && AllProper(o, n, es) && Spent(o, n.guard, k, expiresAt)
    ensures Spent(o, Runs(o, n, es).guard, k, expiresAt)
    decreases |es|
  {
    if es != [] {
      SpentStays(o, n, es[0], k, expiresAt);
      EventKeepsInv(o, n, es[0]);
      SpentStaysThroughout(o, After(o, n, es[0]), es[1..], k, expiresAt);
    }
  }

  /** Whatever the clock does and however often the daemon restarts, a later admission into a slot needs a
      strictly later expiry: one signed manifest is never admitted twice. */
  lemma AtMostOnce(o: Options, before: seq<Event>, first: Event, between: seq<Event>, second: Event)
    requires AllProper(o, FRESH, before)
    requires var n := Runs(o, FRESH, before); Proper(o, n, first) && Admits(o, n, first)
    requires var n := After(o, Runs(o, FRESH, before), first);
             AllProper(o, n, between) && Admits(o, Runs(o, n, between), second)
    requires KeyOf(first.claim) == KeyOf(second.claim)
    ensures first.claim.expiresAt < second.claim.expiresAt
  {
    var n := Runs(o, FRESH, before);
    FreshInv(o);
    RunKeepsInv(o, FRESH, before);
    AdmissionSpends(o, n.guard, first.observed, first.claim);
    EventKeepsInv(o, n, first);
    var m := After(o, n, first);
    SpentStaysThroughout(o, m, between, KeyOf(first.claim), first.claim.expiresAt);
    SpentRefuses(o, Runs(o, m, between).guard, second.observed, second.claim, true, first.claim.expiresAt);
  }

  // ------------------------------------------- exactly which restart clocks are safe

  ghost predicate AdmittedIn(o: Options, n: Node, es: seq<Event>, c: Claim)
    decreases |es|
  {
    es != [] && ((Admits(o, n, es[0]) && es[0].claim == c) || AdmittedIn(o, After(o, n, es[0]), es[1..], c))
  }

  /** After any proper run that reached high-water mark `h`, a restart at clock `r` re-admits nothing. */
  ghost predicate SafeRestart(o: Options, h: int, r: int) {
    forall es: seq<Event>, c: Claim | EndsAt(o, es, h) && AdmittedIn(o, FRESH, es, c) ::
      Assess(o, Restarted(o, r, Runs(o, FRESH, es).disk), r, c, true).1 != Admitted
  }

  ghost predicate EndsAt(o: Options, es: seq<Event>, h: int) {
    AllProper(o, FRESH, es) && Runs(o, FRESH, es).guard.high == Some(h)
  }

  lemma {:induction false} AdmittedIsSpent(o: Options, n: Node, es: seq<Event>, c: Claim)
    requires NodeInv(o, n) && AllProper(o, n, es) && AdmittedIn(o, n, es, c)
    ensures Spent(o, Runs(o, n, es).guard, KeyOf(c), c.expiresAt)
    decreases |es|
  {
    var m := After(o, n, es[0]);
    EventKeepsInv(o, n, es[0]);
    if Admits(o, n, es[0]) && es[0].claim == c {
      AdmissionSpends(o, n.guard, es[0].observed, c);
      SpentStaysThroughout(o, m, es[1..], KeyOf(c), c.expiresAt);
    } else {
      AdmittedIsSpent(o, m, es[1..], c);
    }
  }

  lemma ClockNotBehindIsSafe(o: Options, h: int, r: int)
    requires h <= r
    ensures SafeRestart(o, h, r)
  {
    forall es: seq<Event>, c: Claim | EndsAt(o, es, h) && AdmittedIn(o, FRESH, es, c)
      ensures Assess(o, Restarted(o, r, Runs(o, FRESH, es).disk), r, c, true).1 != Admitted
    {
      var n := Runs(o, FRESH, es);
      FreshInv(o);
      RunKeepsInv(o, FRESH, es);
      AdmittedIsSpent(o, FRESH, es, c);
      SpentStays(o, n, Restart(r), KeyOf(c), c.expiresAt);
      if Assess(o, Restarted(o, r, n.disk), r, c, true).1 == Admitted {
        SpentRefuses(o, Restarted(o, r, n.disk), r, c, true, c.expiresAt);
      }
    }
  }

  /** A message admitted at `r` and lapsed by `h`, then one admitted at `h` whose snapshot no longer lists it. */
  function Lapsed(o: Options, r: int): Claim { Claim([], [], 0, r - o.skew - 1, r - o.skew) }

  function Latest(o: Options, h: int): Claim { Claim([], [1], 0, h + o.skew, h + o.skew + o.maxValidity) }

  function SlotLine(o: Options, c: Claim): Line { Line(KeyOf(c), Reservation(c.expiresAt + o.skew, c.origin)) }

  lemma DistinctSlots(o: Options, h: int, r: int)
    ensures KeyOf(Lapsed(o, r)) != KeyOf(Latest(o, h))
  {
    assert KeyOf(Lapsed(o, r)).text[1] == NUL;
    assert KeyOf(Latest(o, h)).text[1] == 1;
  }

  lemma FirstAdmission(o: Options, r: int)
    requires o.maxEntries > 0 && o.maxPerOrigin > 0 && o.maxValidity > 0
    ensures var (c, entries) := (Lapsed(o, r), map[KeyOf(Lapsed(o, r)) := Reservation(r, [])]);
            && Assess(o, FRESH.guard, r, c, true) == (Guard(entries, Some(r)), Admitted)
            && Lists([SlotLine(o, c)], Live(entries, r))
  {
    var none: Slots := map[];
    assert Of(none, []) == {};
    var entries := map[KeyOf(Lapsed(o, r)) := Reservation(r, [])];
    assert Live(entries, r) == entries;
  }

  lemma LapsedIsNotLive(o: Options, e: Slots, h: int, r: int)
    requires r < h && forall k :: k in e ==> k == KeyOf(Lapsed(o, r)) && e[k] == Reservation(r, [])
    ensures var c := Latest(o, h);
            Lists([SlotLine(o, c)], Live(Reserved(e, o, c), h))
  {
    var c := Latest(o, h);
    DistinctSlots(o, h, r);
    assert Live(Reserved(e, o, c), h) == map[KeyOf(c) := Reservation(c.expiresAt + o.skew, [])];
  }

  lemma SecondAdmission(o: Options, h: int, r: int)
    requires o.maxEntries > 0 && o.maxPerOrigin > 0 && o.maxValidity > 0 && r < h
    ensures var g := Guard(map[KeyOf(Lapsed(o, r)) := Reservation(r, [])], Some(r));
            var (g', v) := Assess(o, g, h, Latest(o, h), true);
            && v == Admitted && g'.high == Some(h)
            && Lists([SlotLine(o, Latest(o, h))], Live(g'.entries, h))
  {
    var k := KeyOf(Lapsed(o, r));
    var e: Slots := map[k := Reservation(r, [])];
    var c := Latest(o, h);
    DistinctSlots(o, h, r);
    assert Live(e, h) == map[];
    assert Of(Live(e, h), []) == {} && Of(e, []) == {k};
    AssessShape(o, Guard(e, Some(r)), h, c, true);
    SweepsDecideAlike(o, e, h, []);
    LapsedIsNotLive(o, Basis(o, e, h, c), h, r);
  }

  lemma ClockBehindIsUnsafe(o: Options, h: int, r: int)
    requires o.maxEntries > 0 && o.maxPerOrigin > 0 && o.maxValidity > 0 && r < h
    ensures !SafeRestart(o, h, r)
  {
    var (c, d) := (Lapsed(o, r), Latest(o, h));
    var first, second := Admit(r, c, [SlotLine(o, c)]), Admit(h, d, [SlotLine(o, d)]);
    var es := [first, second];
    FirstAdmission(o, r);
    SecondAdmission(o, h, r);
    var n1 := After(o, FRESH, first);
    var n2 := After(o, n1, second);
    assert es[1..] == [second] && [second][1..] == [];
    assert Runs(o, n2, []) == n2;
    assert Runs(o, n1, [second]) == Runs(o, n2, [second][1..]);
    assert AllProper(o, n1, [second]);
    assert EndsAt(o, es, h) && Runs(o, FRESH, es) == n2;
    assert AdmittedIn(o, FRESH, es, c);
    var none: Slots := map[];
    assert !Loadable(o, none, r, SlotLine(o, d));
    assert LoadAll(o, none, r, [SlotLine(o, d)]) == none;
    assert Of(none, []) == {};
    assert Assess(o, Restarted(o, r, n2.disk), r, c, true).1 == Admitted;
  }

  /** A restart is safe after every run exactly when its clock is not behind the high-water mark reached. */
  lemma SafeRestartIff(o: Options, h: int, r: int)
    requires o.maxEntries > 0 && o.maxPerOrigin > 0 && o.maxValidity > 0
    ensures SafeRestart(o, h, r) <==> h <= r
  {
    if h <= r { ClockNotBehindIsSafe(o, h, r); } else { ClockBehindIsUnsafe(o, h, r); }
  }
}
