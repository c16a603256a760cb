/** The lazy guard refines its eager specification, and admits a signed manifest at most once. */
module ReplayGuardProofs {
  import opened JsText
  import opened Wrappers
  import opened ReplayGuard
  import Json
  import JsonProofs

  // --------------------------------------------------------------------- counting

  lemma CountBelow(a: Slots, b: Slots, origin: Text)
    requires forall k :: k in a ==> k in b && a[k] == b[k]
    ensures Count(a, origin) <= Count(b, origin) && |a| <= |b|
  {
    Subset(Of(a, origin), Of(b, origin));
    Subset(a.Keys, b.Keys);
  }

  lemma Subset<T>(a: set<T>, b: set<T>)
    requires a <= b
    ensures |a| <= |b|
  {
    assert b == a + (b - a);
  }

  lemma CountWithout(a: Slots, k: SlotKey, origin: Text)
    requires k in a
    ensures Count(a - {k}, origin) == Count(a, origin) - (if a[k].origin == origin then 1 else 0)
    ensures |a - {k}| == |a| - 1
  {
    var rest := a - {k};
    assert Of(a, origin) == if a[k].origin == origin then Of(rest, origin) + {k} else Of(rest, origin);
    assert a.Keys == rest.Keys + {k};
  }

  lemma CountWith(a: Slots, k: SlotKey, r: Reservation, origin: Text)
    requires k !in a
    ensures Count(a[k := r], origin) == Count(a, origin) + (if r.origin == origin then 1 else 0)
    ensures |a[k := r]| == |a| + 1
  {
    var more := a[k := r];
    assert more - {k} == a;
    CountWithout(more, k, origin);
  }

  lemma CountReplaced(a: Slots, k: SlotKey, r: Reservation, origin: Text)
    requires k in a && a[k].origin == r.origin
    ensures Count(a[k := r], origin) == Count(a, origin) && |a[k := r]| == |a|
  {
    assert Of(a[k := r], origin) == Of(a, origin);
    assert a[k := r].Keys == a.Keys;
  }

  // --------------------------------------------------------------------- ceilings

  ghost predicate WithinCeilings(o: Options, entries: Slots) {
    |entries| <= o.maxEntries && forall origin: Text :: Count(entries, origin) <= o.maxPerOrigin
  }

  predicate NulFree(t: Text) { NUL !in t }

  /** The origin a slot key begins with: everything before its first NUL. */
  function Owner(key: Text): Text {
    if key == [] || key[0] == NUL then [] else [key[0]] + Owner(key[1..])
  }

  /** Every key agrees with the origin recorded beside it. */
  ghost predicate KeysAgree(entries: Slots) {
    forall k :: k in entries ==> Owner(k.text) == entries[k].origin
  }

  lemma {:induction false} OwnerOfPrefix(a: Text, rest: Text)
    requires NulFree(a)
    ensures Owner(a + ([NUL] + rest)) == a
  {
    if a != [] {
      assert (a + ([NUL] + rest))[1..] == a[1..] + ([NUL] + rest);
      OwnerOfPrefix(a[1..], rest);
    }
  }

  lemma KeyAgrees(c: Claim)
    requires NulFree(c.origin)
    ensures Owner(KeyOf(c).text) == c.origin
  {
    OwnerOfPrefix(c.origin, c.messageId + ([NUL] + Json.Digits(c.blockIndex)));
  }

  lemma SweepsKeepCeilings(o: Options, e: Slots, t: int, origin: Text)
    requires WithinCeilings(o, e) && KeysAgree(e)
    ensures var e1 := SweptIfFull(o, e, t);
            var e2 := SweptIfOriginFull(o, e1, t, origin);
            WithinCeilings(o, e1) && KeysAgree(e1) && WithinCeilings(o, e2) && KeysAgree(e2) && |e2| <= |e1|
  {
    LiveKeepsCeilings(o, e, t);
    var e1 := SweptIfFull(o, e, t);
    LiveKeepsCeilings(o, e1, t);
    CountBelow(SweptIfOriginFull(o, e1, t, origin), e1, origin);
  }

  /** What an admission starts from. */
  function Basis(o: Options, e: Slots, t: int, c: Claim): Slots {
    if KeyOf(c) in e then e else SweptIfOriginFull(o, SweptIfFull(o, e, t), t, c.origin)
  }

  lemma AssessShape(o: Options, g: Guard, observed: int, c: Claim, reserve: bool)
    ensures var t := Current(g.high, observed);
            var (g', v) := Assess(o, g, observed, c, reserve);
            var basis := Basis(o, g.entries, t, c);
            && g'.high == Some(t)
            && (v == Admitted ==> g'.entries == if reserve then Reserved(basis, o, c) else basis)
            && (v == Admitted ==>
                KeyOf(c) in basis || (|basis| < o.maxEntries && Count(basis, c.origin) < o.maxPerOrigin))
            && (v != Admitted ==> g'.entries in {g.entries, SweptIfFull(o, g.entries, t), basis})
  {
    var t := Current(g.high, observed);
    var e1 := SweptIfFull(o, g.entries, t);
    CountBelow(SweptIfOriginFull(o, e1, t, c.origin), e1, c.origin);
  }

  lemma AssessKeepsCeilings(o: Options, g: Guard, observed: int, c: Claim, reserve: bool)
    requires WithinCeilings(o, g.entries) && KeysAgree(g.entries) && NulFree(c.origin)
    ensures var g' := Assess(o, g, observed, c, reserve).0;
            WithinCeilings(o, g'.entries) && KeysAgree(g'.entries)
  {
    var t := Current(g.high, observed);
    KeyAgrees(c);
    AssessShape(o, g, observed, c, reserve);
    SweepsKeepCeilings(o, g.entries, t, c.origin);
    if Assess(o, g, observed, c, reserve).1 == Admitted {
      ReserveKeepsCeilings(o, Basis(o, g.entries, t, c), KeyOf(c), Reservation(c.expiresAt + o.skew, c.origin));
    }
  }

  lemma ReserveKeepsCeilings(o: Options, e: Slots, k: SlotKey, r: Reservation)
    requires WithinCeilings(o, e) && KeysAgree(e) && Owner(k.text) == r.origin
    requires k in e || (|e| < o.maxEntries && Count(e, r.origin) < o.maxPerOrigin)
    ensures WithinCeilings(o, e[k := r]) && KeysAgree(e[k := r])
  {
    var more := e[k := r];
    forall origin: Text ensures Count(more, origin) <= o.maxPerOrigin {
      if k in e { CountReplaced(e, k, r, origin); } else { CountWith(e, k, r, origin); }
    }
    assert |e[k := r]| <= o.maxEntries by {
      if k in e { CountReplaced(e, k, r, []); } else { CountWith(e, k, r, []); }
    }
  }

  lemma LiveKeepsCeilings(o: Options, e: Slots, t: int)
    requires WithinCeilings(o, e) && KeysAgree(e)
    ensures WithinCeilings(o, Live(e, t)) && KeysAgree(Live(e, t))
  {
    CountBelow(Live(e, t), e, []);
    forall origin: Text ensures Count(Live(e, t), origin) <= o.maxPerOrigin { CountBelow(Live(e, t), e, origin); }
  }

  // -------------------------------------------------------------------- refinement

  /** Both have observed the same time, and hold the same live reservations at it. */
  ghost predicate Related(lazy: Guard, eager: Guard) {
    && lazy.high == eager.high
    && (if lazy.high.Some? then Live(lazy.entries, lazy.high.value) == Live(eager.entries, lazy.high.value)
        else lazy.entries == eager.entries)
  }

  lemma LiveLater(a: Slots, b: Slots, s: int, t: int)
    requires s <= t && Live(a, s) == Live(b, s)
    ensures Live(a, t) == Live(b, t)
  {
    forall k ensures k in Live(a, t) <==> k in Live(b, t)
             ensures k in Live(a, t) ==> Live(a, t)[k] == Live(b, t)[k]
    {
      assert k in Live(a, s) <==> k in Live(b, s);
      if k in Live(a, s) { assert Live(a, s)[k] == Live(b, s)[k]; }
    }
  }

  lemma LiveTwice(a: Slots, s: int, t: int)
    requires s <= t
    ensures Live(Live(a, s), t) == Live(a, t)
  {}

  lemma LiveAtOnce(lazy: Guard, eager: Guard, observed: int)
    requires Related(lazy, eager)
    ensures var t := Current(lazy.high, observed);
            t == Current(eager.high, observed) && Live(lazy.entries, t) == Live(eager.entries, t)
  {
    if lazy.high.Some? { LiveLater(lazy.entries, eager.entries, lazy.high.value, Current(lazy.high, observed)); }
  }

  /** The one case the sweep-free path gets wrong: a lapsed slot recorded for another origin, and this origin full. */
  ghost predicate ForeignSlot(o: Options, g: Guard, observed: int, c: Claim) {
    var t := Current(g.high, observed);
    && Window(o, c, t) == Admitted
    && KeyOf(c) in g.entries && g.entries[KeyOf(c)].exp < t
    && Count(Live(g.entries, t), c.origin) >= o.maxPerOrigin
  }

  /** Sweeping on demand decides the capacity questions as sweeping first would. */
  lemma SweepsDecideAlike(o: Options, e: Slots, t: int, origin: Text)
    ensures var (live, e1) := (Live(e, t), SweptIfFull(o, e, t));
            var e2 := SweptIfOriginFull(o, e1, t, origin);
            && (|e1| >= o.maxEntries <==> |live| >= o.maxEntries)
            && (Count(e2, origin) >= o.maxPerOrigin <==> Count(live, origin) >= o.maxPerOrigin)
            && Live(e1, t) == live && Live(e2, t) == live
  {
    var live := Live(e, t);
    LiveTwice(e, t, t);
    CountBelow(live, e, origin);
  }

  /** A lapsed slot always leaves room under the global ceiling. */
  lemma LapsedSlotLeavesRoom(o: Options, e: Slots, t: int, k: SlotKey)
    requires |e| <= o.maxEntries && k in e && e[k].exp < t
    ensures |Live(e, t)| < o.maxEntries && k !in Live(e, t)
  {
    CountWithout(e, k, []);
    CountBelow(Live(e, t), e - {k}, []);
  }

  /** Within the ceilings, lazy and eager give the same verdict exactly when that case does not arise. */
  lemma VerdictsMatchIff(o: Options, lazy: Guard, eager: Guard, observed: int, c: Claim, reserve: bool)
    requires Related(lazy, eager) && WithinCeilings(o, lazy.entries)
    ensures Assess(o, lazy, observed, c, reserve).1 == AssessEagerly(o, eager, observed, c, reserve).1
       <==> !ForeignSlot(o, lazy, observed, c)
  {
    var t := Current(lazy.high, observed);
    LiveAtOnce(lazy, eager, observed);
    if KeyOf(c) !in lazy.entries {
      SweepsDecideAlike(o, lazy.entries, t, c.origin);
    } else if lazy.entries[KeyOf(c)].exp < t {
      LapsedSlotLeavesRoom(o, lazy.entries, t, KeyOf(c));
    }
  }

  /** Keys that agree with their origins rule that case out. */
  lemma AgreementRulesOutForeign(o: Options, g: Guard, observed: int, c: Claim)
    requires WithinCeilings(o, g.entries) && KeysAgree(g.entries) && NulFree(c.origin)
    ensures !ForeignSlot(o, g, observed, c)
  {
    var t := Current(g.high, observed);
    var k := KeyOf(c);
    KeyAgrees(c);
    if k in g.entries && g.entries[k].exp < t {
      CountWithout(g.entries, k, c.origin);
      CountBelow(Live(g.entries, t), g.entries - {k}, c.origin);
    }
  }

  /** Everything a decision keeps, adds or sweeps is the same set of live reservations either way. */
  lemma StaysRelated(o: Options, lazy: Guard, eager: Guard, observed: int, c: Claim, reserve: bool)
    requires Related(lazy, eager)
    requires Assess(o, lazy, observed, c, reserve).1 == AssessEagerly(o, eager, observed, c, reserve).1
    ensures Related(Assess(o, lazy, observed, c, reserve).0, AssessEagerly(o, eager, observed, c, reserve).0)
  {
    var t := Current(lazy.high, observed);
    var live := Live(eager.entries, t);
    LiveAtOnce(lazy, eager, observed);
    LiveTwice(eager.entries, t, t);
    SweepsDecideAlike(o, lazy.entries, t, c.origin);
    AssessShape(o, lazy, observed, c, reserve);
    ReservedLive(o, Basis(o, lazy.entries, t, c), live, c, t);
  }

  lemma ReservedLive(o: Options, a: Slots, b: Slots, c: Claim, t: int)
    requires Live(a, t) == Live(b, t)
    ensures Live(Reserved(a, o, c), t) == Live(Reserved(b, o, c), t)
  {
    forall k ensures k in Live(Reserved(a, o, c), t) <==> k in Live(Reserved(b, o, c), t)
             ensures k in Live(Reserved(a, o, c), t) ==> Live(Reserved(a, o, c), t)[k] == Live(Reserved(b, o, c), t)[k]
    {
      assert k in Live(a, t) <==> k in Live(b, t);
      if k in Live(a, t) { assert Live(a, t)[k] == Live(b, t)[k]; }
    }
  }

  datatype Try = Try(observed: int, claim: Claim, reserve: bool) | Look(observed: int)

  function RunLazily(o: Options, g: Guard, tries: seq<Try>): (Guard, seq<Verdict>)
    decreases |tries|
  {
    if tries == [] then (g, [])
    else
      match tries[0]
      case Look(observed) => RunLazily(o, Swept(g, observed), tries[1..])
      case Try(observed, c, reserve) =>
        var (g', v) := Assess(o, g, observed, c, reserve);
        var (g'', vs) := RunLazily(o, g', tries[1..]);
        (g'', [v] + vs)
  }

  function RunEagerly(o: Options, g: Guard, tries: seq<Try>): (Guard, seq<Verdict>)
    decreases |tries|
  {
    if tries == [] then (g, [])
    else
      match tries[0]
      case Look(observed) => RunEagerly(o, Swept(g, observed), tries[1..])
      case Try(observed, c, reserve) =>
        var (g', v) := AssessEagerly(o, g, observed, c, reserve);
        var (g'', vs) := RunEagerly(o, g', tries[1..]);
        (g'', [v] + vs)
  }

  /** Over any run and any clock, the lazy guard answers as the eager one, and both ceilings hold throughout. */
  lemma {:induction false} LazyRefinesEager(o: Options, lazy: Guard, eager: Guard, tries: seq<Try>)
    requires Related(lazy, eager) && WithinCeilings(o, lazy.entries) && KeysAgree(lazy.entries)
    requires forall i :: 0 <= i < |tries| && tries[i].Try? ==> NulFree(tries[i].claim.origin)
    ensures RunLazily(o, lazy, tries).1 == RunEagerly(o, eager, tries).1
    ensures Related(RunLazily(o, lazy, tries).0, RunEagerly(o, eager, tries).0)
    ensures WithinCeilings(o, RunLazily(o, lazy, tries).0.entries)
    decreases |tries|
  {
    if tries != [] {
      match tries[0]
      case Look(observed) =>
        var t := Current(lazy.high, observed);
        LiveAtOnce(lazy, eager, observed);
        LiveKeepsCeilings(o, lazy.entries, t);
        LazyRefinesEager(o, Swept(lazy, observed), Swept(eager, observed), tries[1..]);
      case Try(observed, c, reserve) =>
        AgreementRulesOutForeign(o, lazy, observed, c);
        VerdictsMatchIff(o, lazy, eager, observed, c, reserve);
        StaysRelated(o, lazy, eager, observed, c, reserve);
        AssessKeepsCeilings(o, lazy, observed, c, reserve);
        LazyRefinesEager(o, Assess(o, lazy, observed, c, reserve).0,
                         AssessEagerly(o, eager, observed, c, reserve).0, tries[1..]);
    }
  }

  /** A failing input: a persisted line puts c's slot under another origin; once it has lapsed, with c's own origin at
      its ceiling, the lazy guard takes the slot over and exceeds the ceiling, where the eager one refuses. */
  lemma ReloadedForeignSlot(o: Options, c: Claim, d: Claim, other: Text)
    requires o.maxPerOrigin == 1 && 2 <= o.maxEntries && 1 <= o.maxValidity
    requires c.issuedAt == d.issuedAt == 0 && c.expiresAt == d.expiresAt == 1
    requires c.origin == d.origin != other && KeyOf(c) != KeyOf(d)
    ensures var g := Restarted(o, 0, [Line(KeyOf(c), Reservation(0, other))]);
            var tries := [Try(1, d, true), Try(1, c, true)];
            && RunLazily(o, g, tries).1 == [Admitted, Admitted]
            && RunEagerly(o, g, tries).1 == [Admitted, OriginAtCapacity]
            && Count(Live(RunLazily(o, g, tries).0.entries, 1), c.origin) == 2
  {
    var lines := [Line(KeyOf(c), Reservation(0, other))];
    var tries := [Try(1, d, true), Try(1, c, true)];
    var g := Restarted(o, 0, lines);
    assert Of(map[], other) == {};
    var stale: Slots := map[KeyOf(c) := Reservation(0, other)];
    assert Loadable(o, map[], 0, lines[0]);
    var none: seq<Line> := lines[1..];
    assert none == [] && LoadAll(o, map[], 0, lines) == LoadAll(o, stale, 0, none);
    assert g == Guard(stale, Some(0));
    var slot := Reservation(1 + o.skew, c.origin);
    assert Of(stale, c.origin) == {} && Live(stale, 1) == map[];
    var lazy := Guard(stale[KeyOf(d) := slot], Some(1));
    var eager := Guard(map[KeyOf(d) := slot], Some(1));
    assert Assess(o, g, 1, d, true) == (lazy, Admitted);
    assert Of(map[], c.origin) == {};
    assert AssessEagerly(o, g, 1, d, true) == (eager, Admitted);
    assert Live(eager.entries, 1) == eager.entries && Of(eager.entries, c.origin) == {KeyOf(d)};
    var full := lazy.entries[KeyOf(c) := slot];
    assert Of(Live(full, 1), c.origin) == {KeyOf(c), KeyOf(d)};
    TwoTries(o, g, tries, lazy, eager);
  }

  lemma OneTry(o: Options, g: Guard, tries: seq<Try>)
    requires tries != [] && tries[0].Try?
    ensures var (x, rest) := (tries[0], tries[1..]);
            var (g1, v1) := Assess(o, g, x.observed, x.claim, x.reserve);
            var (g2, v2) := AssessEagerly(o, g, x.observed, x.claim, x.reserve);
            && RunLazily(o, g, tries) == (RunLazily(o, g1, rest).0, [v1] + RunLazily(o, g1, rest).1)
            && RunEagerly(o, g, tries) == (RunEagerly(o, g2, rest).0, [v2] + RunEagerly(o, g2, rest).1)
  {
  }

  lemma TwoTries(o: Options, g: Guard, tries: seq<Try>, lazy: Guard, eager: Guard)
    requires |tries| == 2 && tries[0].Try? && tries[1].Try?
    requires lazy == Assess(o, g, tries[0].observed, tries[0].claim, tries[0].reserve).0
    requires eager == AssessEagerly(o, g, tries[0].observed, tries[0].claim, tries[0].reserve).0
    ensures var (x, y) := (tries[0], tries[1]);
            && RunLazily(o, g, tries) == (Assess(o, lazy, y.observed, y.claim, y.reserve).0,
                                          [Assess(o, g, x.observed, x.claim, x.reserve).1,
                                           Assess(o, lazy, y.observed, y.claim, y.reserve).1])
            && RunEagerly(o, g, tries) == (AssessEagerly(o, eager, y.observed, y.claim, y.reserve).0,
                                           [AssessEagerly(o, g, x.observed, x.claim, x.reserve).1,
                                            AssessEagerly(o, eager, y.observed, y.claim, y.reserve).1])
  {
    var rest := tries[1..];
    var none: seq<Try> := rest[1..];
    var (x, y) := (tries[0], tries[1]);
    assert rest[0] == y && none == [];
    OneTry(o, g, tries);
    OneTry(o, lazy, rest);
    OneTry(o, eager, rest);
    var v := Assess(o, lazy, y.observed, y.claim, y.reserve).1;
    var w := AssessEagerly(o, eager, y.observed, y.claim, y.reserve).1;
    assert RunLazily(o, lazy, rest).1 == [v] && RunEagerly(o, eager, rest).1 == [w];
    PairOf(Assess(o, g, x.observed, x.claim, x.reserve).1, v);
    PairOf(AssessEagerly(o, g, x.observed, x.claim, x.reserve).1, w);
  }

  lemma PairOf<T>(x: T, y: T)
    ensures [x] + [y] == [x, y]
  {}

  // ------------------------------------------------------------- one decision, in full

  predicate IsLive(g: Guard, k: SlotKey, t: int) { k in g.entries && t <= g.entries[k].exp }

  /** The first of these that holds: too long a validity, a window not yet or no longer open at the latest time ever
      observed, the slot still reserved, no room for anyone, no room for this origin. Only what is still live counts. */
  function VerdictAt(o: Options, live: Slots, c: Claim, t: int): Verdict {
    if o.maxValidity < c.expiresAt - c.issuedAt then ValidityTooLong
    else if t + o.skew < c.issuedAt then NotYetValid
    else if c.expiresAt + o.skew < t then Expired
    else if KeyOf(c) in live then Duplicate
    else if o.maxEntries <= |live| then AtCapacity
    else if o.maxPerOrigin <= |set k | k in live && live[k].origin == c.origin| then OriginAtCapacity
    else Admitted
  }

  /** What a decision says, and the one live reservation it may add: until the claim's own end plus the skew. */
  lemma DecisionIs(o: Options, g: Guard, observed: int, c: Claim, reserve: bool, k: SlotKey)
    requires WithinCeilings(o, g.entries) && KeysAgree(g.entries) && NulFree(c.origin)
    ensures var (g', v) := Assess(o, g, observed, c, reserve);
            var t := if g.high.Some? && observed < g.high.value then g.high.value else observed;
            var live := map x | x in g.entries && IsLive(g, x, t) :: g.entries[x];
            && v == VerdictAt(o, live, c, t) && g'.high == Some(t)
            && Leaves(o, g, g', c, t, v == Admitted && reserve, k)
  {
    var t := Current(g.high, observed);
    AgreementRulesOutForeign(o, g, observed, c);
    VerdictsMatchIff(o, g, g, observed, c, reserve);
    assert Live(g.entries, t) == map x | x in g.entries && IsLive(g, x, t) :: g.entries[x];
    DecisionLeaves(o, g, observed, c, reserve, k);
  }

  /** One slot after a decision: reserved for this claim, or as live as it was. */
  predicate Leaves(o: Options, g: Guard, g': Guard, c: Claim, t: int, reserved: bool, k: SlotKey) {
    if reserved && k == KeyOf(c) then IsLive(g', k, t) && g'.entries[k] == Reservation(c.expiresAt + o.skew, c.origin)
    else (IsLive(g', k, t) <==> IsLive(g, k, t)) && (IsLive(g, k, t) ==> g'.entries[k] == g.entries[k])
  }

  lemma DecisionLeaves(o: Options, g: Guard, observed: int, c: Claim, reserve: bool, k: SlotKey)
    ensures var (g', v) := Assess(o, g, observed, c, reserve);
            var t := Current(g.high, observed);
            g'.high == Some(t) && Leaves(o, g, g', c, t, v == Admitted && reserve, k)
  {
    AssessShape(o, g, observed, c, reserve);
  }

  /** Another origin, another id or another block is another slot. */
  lemma SlotsAreDistinct(c: Claim, d: Claim)
    requires NulFree(c.origin) && NulFree(c.messageId) && NulFree(d.origin) && NulFree(d.messageId)
    ensures KeyOf(c) == KeyOf(d) <==> c.origin == d.origin && c.messageId == d.messageId && c.blockIndex == d.blockIndex
  {
    if KeyOf(c) == KeyOf(d) {
      SplitAtNul(c.origin, c.messageId + ([NUL] + Json.Digits(c.blockIndex)),
                 d.origin, d.messageId + ([NUL] + Json.Digits(d.blockIndex)));
      SplitAtNul(c.messageId, Json.Digits(c.blockIndex), d.messageId, Json.Digits(d.blockIndex));
      DigitsDiffer(c.blockIndex, d.blockIndex);
    }
  }

  lemma {:induction false} SplitAtNul(a: Text, x: Text, b: Text, y: Text)
    requires NulFree(a) && NulFree(b) && a + ([NUL] + x) == b + ([NUL] + y)
    ensures a == b && x == y
  {
    var (s, t) := (a + ([NUL] + x), b + ([NUL] + y));
    assert a != [] ==> s[0] == a[0] && a[0] in a;
    assert b != [] ==> t[0] == b[0] && b[0] in b;
    if a == [] || b == [] {
      assert s[0] == t[0];
      assert s[1..] == x && t[1..] == y;
    } else {
      assert s[0] == a[0] && t[0] == b[0];
      assert s[1..] == a[1..] + ([NUL] + x) && t[1..] == b[1..] + ([NUL] + y);
      SplitAtNul(a[1..], x, b[1..], y);
    }
  }

  lemma DigitsDiffer(m: nat, n: nat)
    requires Json.Digits(m) == Json.Digits(n)
    ensures m == n
  {
    var none: Text := [];
    JsonProofs.DigitsRoundTrip(m, none);
    JsonProofs.DigitsRoundTrip(n, none);
    assert Json.Digits(m) + none == Json.Digits(n) + none;
  }

  /** A reload takes only lines that a guard of these options could have written by now, and no more than the
      ceilings. */
  lemma {:induction false} ReloadIsBounded(o: Options, e: Slots, t: int, lines: seq<Line>)
    requires |e| <= o.maxEntries && forall k :: k in e ==> t <= e[k].exp <= t + o.maxValidity + 2 * o.skew
    requires forall k :: k in e ==> Count(e, e[k].origin) <= o.maxPerOrigin
    ensures var r := LoadAll(o, e, t, lines);
            && |r| <= o.maxEntries
            && forall k :: k in r ==>
                 t <= r[k].exp <= t + o.maxValidity + 2 * o.skew && Count(r, r[k].origin) <= o.maxPerOrigin
    decreases |lines|
  {
    if lines != [] {
      var l := lines[0];
      var next := if Loadable(o, e, t, l) then e[l.key := l.slot] else e;
      if Loadable(o, e, t, l) {
        forall k | k in next ensures Count(next, next[k].origin) <= o.maxPerOrigin {
          CountWith(e, l.key, l.slot, next[k].origin);
        }
        CountWith(e, l.key, l.slot, l.slot.origin);
      }
      ReloadIsBounded(o, next, t, lines[1..]);
    }
  }
}
