/** End to end: what a destination delivers is what the origin wrapped, once, and refusals reserve nothing. */
module RoutedMessageProofs {
  import opened JsText
  import opened Wrappers
  import opened Keys
  import opened Json
  import opened JsonProofs
  import opened RouteManifest
  import opened RoutedMessage
  import KeyStore
  import G = ReplayGuard
  import opened ReplayGuardProofs
  import R = ReplayRestart

  /** The parser proved to undo `JSON.stringify`, as a reader. */
  function Reader(t: Text): Option<Value> {
    match Parse(t)
    case Bad => None
    case Good(v, _) => Some(v)
  }

  /** So what these theorems ask of the platform's reader can be had. */
  lemma ReaderReadsJson(p: Platform)
    requires forall t :: p.parse(t) == Reader(t)
    ensures ReadsJson(p)
  {
    forall v: Value ensures p.parse(Stringify(v)) == Some(Reading(false, v)) { ParseUndoesWrite(false, v); }
  }

  // -------------------------------------------------------------------- authenticity

  lemma AuthenticIsSigned(p: Platform, d: Destination, w: Wrapper)
    requires Authenticate(p, d, w).Ok?
    ensures var a := Authenticate(p, d, w).value;
            && w.Wrapper? && w.payload == Base64(a.bytes, a.canonical)
            && w.signature.signature == Signed(KeyId(a.m.origin), SignedText(a.m))
            && WellFormed(a.m) && a.m.destination == d.self && a.m.blockCount == 1
  {
    CheckedIsSigned(w.manifest);
  }

  /** What a wrap that succeeded has established. */
  predicate Sound(p: Platform, x: Input) {
    && x.privateKey.Some? && KeyIdOf(x.self.publicKey) == x.privateKey
    && WellFormed(ManifestOf(p, x)) && !Inner(x).Undefined?
    && p.size(Transported(x)) <= MAX_BODY_BYTES && p.wireSize(Assembled(p, x)) <= MAX_WRAPPER_BYTES
    && (x.sealTo.Some? && x.sealTo.value.responseKey.Some? ==> p.x25519(x.sealTo.value.responseKey.value).Some?)
  }

  lemma WrapIsSound(p: Platform, x: Input)
    requires Wrap(p, x).Ok?
    ensures Sound(p, x) && Wrap(p, x).value == Assembled(p, x)
  {
    BuildThenCheck(ManifestOf(p, x));
  }

  /** The honest origin signed this payload as the manifest of a message it wrapped. */
  ghost predicate Produced(p: Platform, honest: KeyId, x: Input, v: Value) {
    Wrap(p, x).Ok? && x.privateKey == Some(honest) && v == Arr(Items(ManifestOf(p, x)))
  }

  /** Whatever else the key signs, it signs nothing in the manifest domain but the manifests it wraps. */
  ghost predicate SignsOnly(p: Platform, honest: KeyId, wraps: set<Input>, log: set<Value>) {
    forall v :: v in log && InDomain(v) ==> exists x :: x in wraps && Produced(p, honest, x, v)
  }

  /** A signature under the honest key on the wire is over something that key signed. */
  ghost predicate Unforged(honest: KeyId, log: set<Value>, w: Wrapper) {
    w.Wrapper? && w.signature.signature.Signed? && w.signature.signature.signer == honest ==>
      exists v :: v in log && Canonicalize(v) == w.signature.signature.text
  }

  /** No byte string on the wire collides with what the origin committed to. */
  ghost predicate NoCollision(p: Platform, wraps: set<Input>, w: Wrapper) {
    w.Wrapper? && w.payload.Base64? ==>
      forall x :: x in wraps && x.privateKey.Some? && p.digest(Transported(x)) == p.digest(w.payload.bytes) ==>
        Transported(x) == w.payload.bytes
  }

  /** What an honestly wrapped message carries to whoever can open it. */
  function Arrives(p: Platform, x: Input): Result<(Value, Option<Text>), Reason> {
    if x.sealTo.Some? then Unframe(p, Reading(false, Inner(x))) else Ok((Reading(false, Inner(x)), None))
  }

  /** Whose sealing key a sealed message needs. */
  predicate OpensFor(d: Destination, x: Input) {
    x.sealTo.Some? ==> SameX25519(d.sealKey, x.sealTo.value.recipient)
  }

  predicate SameX25519(mine: Option<Key>, to: Key) {
    mine.Some? && mine.value.kind == to.kind && mine.value.id == to.id
  }

  lemma ManifestHasOneAuthor(p: Platform, d: Destination, w: Wrapper, honest: KeyId, wraps: set<Input>, log: set<Value>)
    returns (x: Input)
    requires Authenticate(p, d, w).Ok? && Authenticate(p, d, w).value.m.origin == honest.text
    requires SignsOnly(p, honest, wraps, log) && Unforged(honest, log, w)
    ensures x in wraps && Wrap(p, x).Ok? && x.privateKey == Some(honest)
    ensures ManifestOf(p, x) == Authenticate(p, d, w).value.m
  {
    var m := Authenticate(p, d, w).value.m;
    AuthenticIsSigned(p, d, w);
    var v :| v in log && Canonicalize(v) == SignedText(m);
    DomainsAreSeparate(v, m);
    x :| x in wraps && Produced(p, honest, x, v);
    SignedTextDetermines(ManifestOf(p, x), m);
  }

  lemma RecoveredIsSent(p: Platform, d: Destination, a: Authentic, x: Input)
    requires ReadsJson(p) && Sound(p, x)
    requires a.m.sealed == x.sealTo.Some? && a.bytes == Transported(x)
    requires Recover(p, d, a).Ok?
    ensures Recover(p, d, a) == Arrives(p, x) && OpensFor(d, x)
  {
    assert p.parse(Stringify(Inner(x))) == Some(Reading(false, Inner(x)));
  }

  /** Injective agreement: a delivered message was wrapped by its origin, for this destination, under that id, sealed or
      not as delivered, and its body is what that wrap carries; a sealed one was sealed to this machine's key. */
  lemma Agreement(p: Platform, d: Destination, o: G.Options, g: G.Guard, checkAt: int, admitAt: int, w: Wrapper,
                  honest: KeyId, wraps: set<Input>, log: set<Value>)
    returns (x: Input)
    requires ReadsJson(p) && SignsOnly(p, honest, wraps, log) && Unforged(honest, log, w) && NoCollision(p, wraps, w)
    requires Open(p, d, o, g, checkAt, admitAt, w).1.Delivered?
    requires Open(p, d, o, g, checkAt, admitAt, w).1.who.origin == honest.text
    ensures var out := Open(p, d, o, g, checkAt, admitAt, w).1;
            && x in wraps && x.privateKey == Some(honest) && x.destination == d.self
            && x.messageId == out.who.messageId && out.who.blockIndex == 0
            && out.sealed == x.sealTo.Some? && OpensFor(d, x)
            && Arrives(p, x) == Ok((out.body, out.responseKey))
  {
    var a := Authenticate(p, d, w).value;
    AuthenticIsSigned(p, d, w);
    x := ManifestHasOneAuthor(p, d, w, honest, wraps, log);
    WrapIsSound(p, x);
    RecoveredIsSent(p, d, a, x);
  }

  // --------------------------------------------------------------- the body's framing

  /** A sealed body without a response key that itself looks like the header, or with one and absent. */
  predicate Misframed(x: Input) {
    && x.sealTo.Some?
    && (if x.sealTo.value.responseKey.Some? then x.body.Undefined? else Headed(Reading(false, x.body)))
  }

  lemma NamesAreTwo()
    ensures HEADER != BODY && MESSAGE_ID != BODY
  {
    assert |HEADER| != |BODY| && |MESSAGE_ID| != |BODY|;
  }

  lemma GetIsSmaller(v: Value, es: seq<Entry>, k: Text)
    requires v.Obj? && (forall e :: e in es ==> e in v.entries) && Has(es, k)
    ensures Get(es, k) != v
  {
    if es != [] && es[0].0 == k {
      assert es[0] in v.entries;
      assert es[0].1 < v;
    } else if es != [] {
      var i :| 0 <= i < |es| && es[i].0 == k;
      assert es[1..][i - 1].0 == k;
      GetIsSmaller(v, es[1..], k);
    }
  }

  lemma FramedReads(k: Text, body: Value)
    ensures var v := Obj([(HEADER, Str(k)), (BODY, body)]);
            Reading(false, v) == if body.Undefined? then Obj([(HEADER, Str(k))])
                                 else Obj([(HEADER, Str(k)), (BODY, Reading(false, body))])
  {
    var v := Obj([(HEADER, Str(k)), (BODY, body)]);
    var es := v.entries;
    var last: seq<Entry> := es[1..];
    assert last == [(BODY, body)] && last[1..] == [];
    assert Defined(last) == if body.Undefined? then [] else last;
    assert Visited(false, es) == [es[0]] + Defined(last);
    assert [es[0]] + last == es;
    var header := [(HEADER, Str(k))];
    assert header[1..] == [];
    if body.Undefined? { assert ReadingEntries(false, v, header) == [(HEADER, Str(k))]; }
    else { assert ReadingEntries(false, v, es[1..]) == [(BODY, Reading(false, body))]; }
  }

  /** The destination gets the JSON reading of exactly the body given to `wrap`, and the response key, unless it is
      misframed; then it gets something else or nothing. */
  lemma BodyArrivesIff(p: Platform, x: Input)
    requires Wrap(p, x).Ok?
    ensures Arrives(p, x).Ok? && Arrives(p, x).value.0 == Reading(false, x.body) <==> !Misframed(x)
    ensures !Misframed(x) && x.sealTo.Some? ==> Arrives(p, x).value.1 == x.sealTo.value.responseKey
  {
    NamesAreTwo();
    if x.sealTo.Some? {
      if x.sealTo.value.responseKey.Some? {
        var k := x.sealTo.value.responseKey.value;
        FramedReads(k, x.body);
        FramedShape(k, Reading(false, x.body));
      } else {
        var v := Reading(false, x.body);
        if Headed(v) { GetIsSmaller(v, v.entries, BODY); }
      }
    }
  }

  lemma FramedShape(k: Text, body: Value)
    ensures Headed(Obj([(HEADER, Str(k)), (BODY, body)]))
    ensures Get([(HEADER, Str(k)), (BODY, body)], HEADER) == Str(k)
            && Get([(HEADER, Str(k)), (BODY, body)], BODY) == body
    ensures !Headed(Obj([(HEADER, Str(k))]))
  {
    NamesAreTwo();
    var es := [(HEADER, Str(k)), (BODY, body)];
    assert es[0].0 == HEADER && es[1].0 == BODY;
    assert es[1..] == [(BODY, body)];
  }

  // ------------------------------------------------------------------- completeness

  /** The destination will open it: addressed to it, openable by it, allowed by policy, well framed. */
  predicate Acceptable(p: Platform, d: Destination, x: Input)
    requires x.privateKey.Some?
  {
    && x.destination == d.self && OpensFor(d, x)
    && Policy(d, ManifestOf(p, x)).None? && Arrives(p, x).Ok?
  }

  ghost predicate SealedIsJson(p: Platform) { forall b: Block :: p.parse(p.blockText(b)).Some? }

  lemma ShapeOf(d: Destination, w: Wrapper, wireSize: nat, m: Manifest)
    requires w.Wrapper? && w.payload.Base64? && w.signature.canonical && m.blockCount == 1
             && wireSize <= MAX_WRAPPER_BYTES
    requires w.record.OriginRecord? && w.record.canonical && w.record.envelope.Envelope?
    ensures Shape(d, w, wireSize, Ok(m)) ==
              if m.destination != d.self then Some(NotForMe)
              else if m.sealed && d.sealKey.None? then Some(UnsupportedMode)
              else None
  {
  }

  lemma IdentityOf(origin: Text, self: KeyStore.SelfRecord)
    requires KeyIdOf(self.publicKey) == Some(KeyId(origin))
    ensures Identify(origin, KeyStore.Envelope(self, KeyStore.SignedBy(KeyId(origin), self)), true).None?
  {
  }

  lemma WrappedAuthenticates(p: Platform, d: Destination, x: Input)
    requires Sound(p, x)
    ensures var a := Authenticate(p, d, Assembled(p, x));
            if x.destination == d.self && (x.sealTo.Some? ==> d.sealKey.Some?)
            then a == Ok(Authentic(ManifestOf(p, x), Transported(x), true)) else a.Err?
  {
    var m, w := ManifestOf(p, x), Assembled(p, x);
    SignedVerifies(m, x.self.publicKey);
    ShapeOf(d, w, p.wireSize(w), m);
    IdentityOf(m.origin, x.self);
  }

  /** What an honest origin wraps, an untampered delivery opens, exactly when the destination accepts it and its guard
      admits it, and what comes out is what went in. */
  lemma WrapOpensIff(p: Platform, d: Destination, o: G.Options, g: G.Guard, checkAt: int, admitAt: int, x: Input)
    requires ReadsJson(p) && SealedIsJson(p) && Wrap(p, x).Ok?
    ensures var (g1, first) := G.Assess(o, g, checkAt, ClaimOf(ManifestOf(p, x)), false);
            var second := G.Assess(o, g1, admitAt, ClaimOf(ManifestOf(p, x)), true).1;
            Open(p, d, o, g, checkAt, admitAt, Wrap(p, x).value).1.Delivered?
            <==> Acceptable(p, d, x) && first == G.Admitted && second == G.Admitted
    ensures Open(p, d, o, g, checkAt, admitAt, Wrap(p, x).value).1.Delivered? ==>
              Open(p, d, o, g, checkAt, admitAt, Wrap(p, x).value).1
              == Delivered(Arrives(p, x).value.0, Who(ManifestOf(p, x)), x.sealTo.Some?, Arrives(p, x).value.1)
  {
    WrapIsSound(p, x);
    WrappedAuthenticates(p, d, x);
    WrappedRecovers(p, d, x);
  }

  lemma WrappedRecovers(p: Platform, d: Destination, x: Input)
    requires ReadsJson(p) && SealedIsJson(p) && Sound(p, x)
    ensures var r := Recover(p, d, Authentic(ManifestOf(p, x), Transported(x), true));
            (r.Ok? <==> OpensFor(d, x) && Arrives(p, x).Ok?) && (r.Ok? ==> r == Arrives(p, x))
  {
    assert p.parse(Stringify(Inner(x))) == Some(Reading(false, Inner(x)));
  }

  // -------------------------------------------------------------- the guard's account

  lemma DecisionKeepsLive(o: G.Options, g: G.Guard, observed: int, c: G.Claim, reserve: bool)
    ensures var (g', v) := G.Assess(o, g, observed, c, reserve);
            && g'.high.Some?
            && (!reserve || v != G.Admitted ==> G.Live(g'.entries, g'.high.value) == G.Live(g.entries, g'.high.value))
            && (reserve && v == G.Admitted ==>
                  G.Live(g'.entries, g'.high.value) == G.Live(G.Reserved(g.entries, o, c), g'.high.value))
  {
    var t := G.Current(g.high, observed);
    LiveTwice(g.entries, t, t);
    SweepsDecideAlike(o, g.entries, t, c.origin);
    var basis := Basis(o, g.entries, t, c);
    assert G.Live(basis, t) == G.Live(g.entries, t);
    AssessShape(o, g, observed, c, reserve);
    if reserve { ReservedLive(o, basis, g.entries, c, t); }
  }

  /** What a decision on an authentic message does to the guard, given whether its body can be recovered. */
  function GuardAfter(o: G.Options, g: G.Guard, checkAt: int, admitAt: int, c: G.Claim, recovered: bool)
    : (G.Guard, bool)
  {
    var (g1, first) := G.Assess(o, g, checkAt, c, false);
    if first != G.Admitted || !recovered then (g1, false)
    else
      var (g2, second) := G.Assess(o, g1, admitAt, c, true);
      (g2, second == G.Admitted)
  }

  /** The message gets as far as the guard. */
  predicate Reaches(p: Platform, d: Destination, w: Wrapper) {
    Authenticate(p, d, w).Ok? && Policy(d, Authenticate(p, d, w).value.m).None?
  }

  lemma OpenAsGuard(p: Platform, d: Destination, o: G.Options, g: G.Guard, checkAt: int, admitAt: int, w: Wrapper)
    ensures var (g', out) := Open(p, d, o, g, checkAt, admitAt, w);
            if Reaches(p, d, w) then
              var a := Authenticate(p, d, w).value;
              (g', out.Delivered?) == GuardAfter(o, g, checkAt, admitAt, ClaimOf(a.m), Recover(p, d, a).Ok?)
            else g' == g && out.Refused?
  {
  }

  lemma GuardKeepsLive(o: G.Options, g: G.Guard, checkAt: int, admitAt: int, c: G.Claim, recovered: bool)
    ensures var (g', delivered) := GuardAfter(o, g, checkAt, admitAt, c, recovered);
            && g'.high.Some?
            && G.Live(g'.entries, g'.high.value)
               == G.Live(if delivered then G.Reserved(g.entries, o, c) else g.entries, g'.high.value)
  {
    var (g1, first) := G.Assess(o, g, checkAt, c, false);
    DecisionKeepsLive(o, g, checkAt, c, false);
    if first == G.Admitted && recovered {
      var (g2, second) := G.Assess(o, g1, admitAt, c, true);
      DecisionKeepsLive(o, g1, admitAt, c, true);
      LiveLater(g1.entries, g.entries, g1.high.value, g2.high.value);
      ReservedLive(o, g1.entries, g.entries, c, g2.high.value);
    }
  }

  /** Whatever is refused leaves the live reservations as they were; whatever is delivered adds its own, no other. */
  lemma RefusalReservesNothing(p: Platform, d: Destination, o: G.Options, g: G.Guard, checkAt: int, admitAt: int,
                               w: Wrapper)
    ensures var (g', out) := Open(p, d, o, g, checkAt, admitAt, w);
            if g' == g && out.Refused? then true
            else
              && Authenticate(p, d, w).Ok? && g'.high.Some?
              && var c := ClaimOf(Authenticate(p, d, w).value.m);
                 G.Live(g'.entries, g'.high.value)
                 == G.Live(if out.Delivered? then G.Reserved(g.entries, o, c) else g.entries, g'.high.value)
  {
    OpenAsGuard(p, d, o, g, checkAt, admitAt, w);
    if Reaches(p, d, w) {
      var a := Authenticate(p, d, w).value;
      GuardKeepsLive(o, g, checkAt, admitAt, ClaimOf(a.m), Recover(p, d, a).Ok?);
    }
  }

  // --------------------------------------------------------------------- at most once

  /** What can happen to a destination: a wrapper arrives, its guard is inspected, it restarts from its snapshot. */
  datatype Incident =
    | Arrival(checkAt: int, admitAt: int, w: Wrapper, lines: seq<G.Line>)
    | Inspection(observed: int)
    | Reboot(observed: int)

  function Meet(p: Platform, d: Destination, o: G.Options, n: R.Node, i: Incident): R.Node {
    match i
    case Arrival(checkAt, admitAt, w, lines) =>
      var (g, out) := Open(p, d, o, n.guard, checkAt, admitAt, w);
      R.Node(g, if out.Delivered? then lines else n.disk)
    case Inspection(observed) => R.After(o, n, R.Inspect(observed))
    case Reboot(observed) => R.After(o, n, R.Restart(observed))
  }

  predicate Delivers(p: Platform, d: Destination, o: G.Options, n: R.Node, i: Incident) {
    i.Arrival? && Open(p, d, o, n.guard, i.checkAt, i.admitAt, i.w).1.Delivered?
  }

  /** Every delivery's snapshot is written, and no restart's clock is behind the high-water mark. */
  ghost predicate Durable(p: Platform, d: Destination, o: G.Options, n: R.Node, i: Incident) {
    && (Delivers(p, d, o, n, i) ==>
          var g := Open(p, d, o, n.guard, i.checkAt, i.admitAt, i.w).0;
          g.high.Some? && G.Lists(i.lines, G.Live(g.entries, g.high.value)))
    && (i.Reboot? && n.guard.high.Some? ==> n.guard.high.value <= i.observed)
  }

  function MeetAll(p: Platform, d: Destination, o: G.Options, n: R.Node, ins: seq<Incident>): R.Node
    decreases |ins|
  {
    if ins == [] then n else MeetAll(p, d, o, Meet(p, d, o, n, ins[0]), ins[1..])
  }

  ghost predicate AllDurable(p: Platform, d: Destination, o: G.Options, n: R.Node, ins: seq<Incident>)
    decreases |ins|
  {
    ins == [] || (Durable(p, d, o, n, ins[0]) && AllDurable(p, d, o, Meet(p, d, o, n, ins[0]), ins[1..]))
  }

  lemma DigestIsNulFree(t: Text)
    requires IsDigest(t)
    ensures NulFree(t)
  {
    assert Base64Url(G.NUL) == -1;
  }

  lemma GuardAsEvents(o: G.Options, n: R.Node, checkAt: int, admitAt: int, c: G.Claim, recovered: bool,
                      lines: seq<G.Line>)
    returns (es: seq<R.Event>)
    requires NulFree(c.origin)
    requires var (g, delivered) := GuardAfter(o, n.guard, checkAt, admitAt, c, recovered);
             delivered ==> g.high.Some? && G.Lists(lines, G.Live(g.entries, g.high.value))
    ensures R.AllProper(o, n, es)
    ensures var (g, delivered) := GuardAfter(o, n.guard, checkAt, admitAt, c, recovered);
            R.Runs(o, n, es) == R.Node(g, if delivered then lines else n.disk)
  {
    var check, admit := R.Check(checkAt, c), R.Admit(admitAt, c, lines);
    if G.Assess(o, n.guard, checkAt, c, false).1 != G.Admitted || !recovered {
      es := [check];
      assert es[1..] == [];
    } else {
      es := [check, admit];
      assert es[1..] == [admit] && es[1..][1..] == [];
      assert R.Runs(o, n, es) == R.Runs(o, R.After(o, n, check), [admit]);
      assert R.Runs(o, R.After(o, n, check), [admit]) == R.After(o, R.After(o, n, check), admit);
    }
  }

  /** An incident is at most two of the guard's events. */
  lemma AsEvents(p: Platform, d: Destination, o: G.Options, n: R.Node, i: Incident) returns (es: seq<R.Event>)
    requires Durable(p, d, o, n, i)
    ensures R.AllProper(o, n, es) && R.Runs(o, n, es) == Meet(p, d, o, n, i)
  {
    match i
    case Inspection(observed) => es := [R.Inspect(observed)]; assert es[1..] == [];
    case Reboot(observed) => es := [R.Restart(observed)]; assert es[1..] == [];
    case Arrival(checkAt, admitAt, w, lines) =>
      OpenAsGuard(p, d, o, n.guard, checkAt, admitAt, w);
      if !Reaches(p, d, w) { return []; }
      AuthenticIsSigned(p, d, w);
      var a := Authenticate(p, d, w).value;
      DigestIsNulFree(a.m.origin);
      es := GuardAsEvents(o, n, checkAt, admitAt, ClaimOf(a.m), Recover(p, d, a).Ok?, lines);
  }

  lemma {:induction false} IncidentsKeep(p: Platform, d: Destination, o: G.Options, n: R.Node, ins: seq<Incident>)
    requires R.NodeInv(o, n) && AllDurable(p, d, o, n, ins)
    ensures R.NodeInv(o, MeetAll(p, d, o, n, ins))
    decreases |ins|
  {
    if ins != [] {
      var es := AsEvents(p, d, o, n, ins[0]);
      R.RunKeepsInv(o, n, es);
      IncidentsKeep(p, d, o, Meet(p, d, o, n, ins[0]), ins[1..]);
    }
  }

  lemma {:induction false} IncidentsKeepSpent(p: Platform, d: Destination, o: G.Options, n: R.Node, ins: seq<Incident>,
                                              k: G.SlotKey, expiresAt: int)
    requires R.NodeInv(o, n) && AllDurable(p, d, o, n, ins) && R.Spent(o, n.guard, k, expiresAt)
    ensures R.Spent(o, MeetAll(p, d, o, n, ins).guard, k, expiresAt)
    decreases |ins|
  {
    if ins != [] {
      var es := AsEvents(p, d, o, n, ins[0]);
      R.RunKeepsInv(o, n, es);
      R.SpentStaysThroughout(o, n, es, k, expiresAt);
      IncidentsKeepSpent(p, d, o, Meet(p, d, o, n, ins[0]), ins[1..], k, expiresAt);
    }
  }

  lemma DeliverySpends(p: Platform, d: Destination, o: G.Options, n: R.Node, i: Incident)
    requires Delivers(p, d, o, n, i)
    ensures var c := ClaimOf(Authenticate(p, d, i.w).value.m);
            R.Spent(o, Meet(p, d, o, n, i).guard, G.KeyOf(c), c.expiresAt)
  {
    var c := ClaimOf(Authenticate(p, d, i.w).value.m);
    var g1 := G.Assess(o, n.guard, i.checkAt, c, false).0;
    R.AdmissionSpends(o, g1, i.admitAt, c);
  }

  lemma SpentRefusesDelivery(p: Platform, d: Destination, o: G.Options, n: R.Node, i: Incident, expiresAt: int)
    requires Delivers(p, d, o, n, i)
    requires R.Spent(o, n.guard, G.KeyOf(ClaimOf(Authenticate(p, d, i.w).value.m)), expiresAt)
    ensures expiresAt < Authenticate(p, d, i.w).value.m.expiresAt
  {
    var c := ClaimOf(Authenticate(p, d, i.w).value.m);
    R.DecisionKeepsSpent(o, n.guard, i.checkAt, c, false, G.KeyOf(c), expiresAt);
    R.SpentRefuses(o, G.Assess(o, n.guard, i.checkAt, c, false).0, i.admitAt, c, true, expiresAt);
  }

  /** One signed manifest is delivered at most once, under any clock, any wrapper carrying it, and any number of
      restarts from the written snapshot: a second delivery for the same origin, id and block is of a manifest the
      origin signed with a later expiry. */
  lemma DeliveredAtMostOnce(p: Platform, d: Destination, o: G.Options, before: seq<Incident>, first: Incident,
                            between: seq<Incident>, second: Incident)
    requires var n := MeetAll(p, d, o, R.FRESH, before);
             AllDurable(p, d, o, R.FRESH, before) && Durable(p, d, o, n, first) && Delivers(p, d, o, n, first)
    requires var n := Meet(p, d, o, MeetAll(p, d, o, R.FRESH, before), first);
             AllDurable(p, d, o, n, between) && Delivers(p, d, o, MeetAll(p, d, o, n, between), second)
    requires Who(Authenticate(p, d, first.w).value.m) == Who(Authenticate(p, d, second.w).value.m)
    ensures Authenticate(p, d, first.w).value.m.expiresAt < Authenticate(p, d, second.w).value.m.expiresAt
    ensures Authenticate(p, d, first.w).value.m != Authenticate(p, d, second.w).value.m
  {
    var c := ClaimOf(Authenticate(p, d, first.w).value.m);
    var n := MeetAll(p, d, o, R.FRESH, before);
    var m := Meet(p, d, o, n, first);
    R.FreshInv(o);
    IncidentsKeep(p, d, o, R.FRESH, before);
    var es := AsEvents(p, d, o, n, first);
    R.RunKeepsInv(o, n, es);
    DeliverySpends(p, d, o, n, first);
    IncidentsKeepSpent(p, d, o, m, between, G.KeyOf(c), c.expiresAt);
    SpentRefusesDelivery(p, d, o, MeetAll(p, d, o, m, between), second, c.expiresAt);
  }
}
