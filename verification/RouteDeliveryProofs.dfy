/** The downgrade ratchet, sealed replies, and what a receipt proves. */
module RouteDeliveryProofs {
  import opened JsText
  import opened Wrappers
  import opened Keys
  import opened Json
  import opened RouteManifest
  import opened RoutedMessage
  import opened RoutedMessageProofs
  import opened RouteDelivery
  import G = ReplayGuard
  import Obs = RoutedObservation

  // ---------------------------------------------------------------- the downgrade ratchet

  /** A destination's markers and the file they are written to. */
  datatype Ratchet = Ratchet(markers: Obs.Markers, saved: seq<Obs.Line>)

  /** `landed`: what a durable write of the markers put on disk, if it succeeded. The guard is whatever it then is. */
  datatype Event =
    | Message(guard: G.Guard, checkAt: int, admitAt: int, w: Wrapper, landed: Option<seq<Obs.Line>>)
    | Retry(landed: Option<seq<Obs.Line>>)
    | Restart

  function OutcomeOf(p: Platform, d: Destination, o: G.Options, r: Ratchet, e: Event): Outcome
    requires e.Message?
  {
    Open(p, Armed(d, r.markers), o, e.guard, e.checkAt, e.admitAt, e.w).1
  }

  function Saved(r: Ratchet, landed: Option<seq<Obs.Line>>): Ratchet {
    if landed.Some? then r.(saved := landed.value) else r
  }

  function After(p: Platform, d: Destination, o: G.Options, max: nat, r: Ratchet, e: Event): Ratchet {
    match e
    case Message(_, _, _, _, landed) =>
      var markers := Learned(r.markers, max, OutcomeOf(p, d, o, r, e));
      if markers == r.markers then r else Saved(Ratchet(markers, r.saved), landed)
    case Retry(landed) => Saved(r, landed)
    case Restart => r.(markers := Obs.Load(Obs.NONE, max, r.saved))
  }

  /** A write that lands writes the markers as they are. */
  ghost predicate Writes(p: Platform, d: Destination, o: G.Options, max: nat, r: Ratchet, e: Event) {
    && (e.Message? && e.landed.Some? ==> Obs.Lists(e.landed.value, Learned(r.markers, max, OutcomeOf(p, d, o, r, e))))
    && (e.Retry? && e.landed.Some? ==> Obs.Lists(e.landed.value, r.markers))
  }

  ghost predicate Runs(p: Platform, d: Destination, o: G.Options, max: nat, states: seq<Ratchet>, events: seq<Event>) {
    && |states| == |events| + 1
    && states[0] == Ratchet(Obs.NONE, [])
    && forall i :: 0 <= i < |events| ==>
         Writes(p, d, o, max, states[i], events[i]) && states[i + 1] == After(p, d, o, max, states[i], events[i])
  }

  /** The file lists some earlier state of the markers. */
  ghost predicate FileOf(r: Ratchet, max: nat, m: Obs.Markers) {
    && Obs.Sized(m, max) && Obs.OnlyKnown(m) && Obs.Lists(r.saved, m)
    && forall k, x :: k in m.entries && x in m.entries[k] ==> k in r.markers.entries && x in r.markers.entries[k]
  }

  ghost predicate Sound(r: Ratchet, max: nat) {
    Obs.Sized(r.markers, max) && Obs.OnlyKnown(r.markers) && exists m :: FileOf(r, max, m)
  }

  /** The marker is in memory and in the file. */
  ghost predicate Marked(r: Ratchet, max: nat, id: Text) {
    && Obs.Has(r.markers, id, Obs.REQUIRE_SEAL_FROM)
    && Obs.Has(Obs.Load(Obs.NONE, max, r.saved), id, Obs.REQUIRE_SEAL_FROM)
  }

  lemma FreshIsSound(max: nat)
    ensures Sound(Ratchet(Obs.NONE, []), max)
  {
    assert FileOf(Ratchet(Obs.NONE, []), max, Obs.NONE);
  }

  lemma LearningGrows(p: Platform, d: Destination, o: G.Options, max: nat, r: Ratchet, e: Event)
    requires e.Message? && Obs.Sized(r.markers, max) && Obs.OnlyKnown(r.markers)
    ensures var m := Learned(r.markers, max, OutcomeOf(p, d, o, r, e));
            && Obs.Sized(m, max) && Obs.OnlyKnown(m)
            && forall k, x ::
                 k in r.markers.entries && x in r.markers.entries[k] ==> k in m.entries && x in m.entries[k]
  {
    var out := OutcomeOf(p, d, o, r, e);
    if out.Delivered? && out.sealed {
      OriginIsDigest(p, Armed(d, r.markers), o, e.guard, e.checkAt, e.admitAt, e.w);
      Obs.MarkersOnlyGrow(r.markers, max, out.who.origin, Obs.REQUIRE_SEAL_FROM);
    }
  }

  lemma EventKeeps(p: Platform, d: Destination, o: G.Options, max: nat, r: Ratchet, e: Event, id: Text)
    requires Sound(r, max) && Writes(p, d, o, max, r, e)
    ensures Sound(After(p, d, o, max, r, e), max)
    ensures Marked(r, max, id) ==> Marked(After(p, d, o, max, r, e), max, id)
  {
    var m :| FileOf(r, max, m);
    var r' := After(p, d, o, max, r, e);
    Obs.ReloadKeepsMarkers(m, max, r.saved);
    match e
    case Message(_, _, _, _, landed) =>
      LearningGrows(p, d, o, max, r, e);
      KeepsFile(r, r', max, m);
    case Retry(landed) => KeepsFile(r, r', max, m);
    case Restart => assert FileOf(r', max, m);
  }

  /** Memory has only grown, and the file is as it was or lists the new memory. */
  lemma KeepsFile(r: Ratchet, r': Ratchet, max: nat, m: Obs.Markers)
    requires FileOf(r, max, m) && Obs.Sized(r'.markers, max) && Obs.OnlyKnown(r'.markers)
    requires forall k, x :: k in r.markers.entries && x in r.markers.entries[k] ==>
               k in r'.markers.entries && x in r'.markers.entries[k]
    requires r'.saved == r.saved || Obs.Lists(r'.saved, r'.markers)
    ensures Sound(r', max)
    ensures forall id: Text :: Marked(r, max, id) ==> Marked(r', max, id)
  {
    Obs.ReloadKeepsMarkers(m, max, r.saved);
    if r'.saved == r.saved {
      assert FileOf(r', max, m);
    } else {
      assert FileOf(r', max, r'.markers);
      Obs.ReloadKeepsMarkers(r'.markers, max, r'.saved);
    }
  }

  lemma {:induction false} RunKeeps(p: Platform, d: Destination, o: G.Options, max: nat, states: seq<Ratchet>,
                                    events: seq<Event>, id: Text, i: nat, j: nat)
    requires Runs(p, d, o, max, states, events) && i <= j < |states|
    ensures Sound(states[j], max)
    ensures Marked(states[i], max, id) ==> Marked(states[j], max, id)
    decreases j
  {
    if j == 0 {
      FreshIsSound(max);
    } else if i < j {
      RunKeeps(p, d, o, max, states, events, id, i, j - 1);
      EventKeeps(p, d, o, max, states[j - 1], events[j - 1], id);
    } else {
      RunKeeps(p, d, o, max, states, events, id, 0, j - 1);
      EventKeeps(p, d, o, max, states[j - 1], events[j - 1], id);
    }
  }

  lemma MarkedRefusesClear(p: Platform, d: Destination, o: G.Options, r: Ratchet, e: Event)
    requires e.Message? && OutcomeOf(p, d, o, r, e).Delivered?
    requires Obs.Has(r.markers, OutcomeOf(p, d, o, r, e).who.origin, Obs.REQUIRE_SEAL_FROM)
    ensures OutcomeOf(p, d, o, r, e).sealed
  {
    var armed := Armed(d, r.markers);
    var m := Authenticate(p, armed, e.w).value.m;
    assert Policy(armed, m).None?;
  }

  predicate NoRestart(events: seq<Event>, i: nat, k: nat) {
    forall x :: i <= x < k && x < |events| ==> !events[x].Restart?
  }

  lemma EventRemembers(p: Platform, d: Destination, o: G.Options, max: nat, r: Ratchet, e: Event, id: Text)
    requires Obs.Sized(r.markers, max) && Obs.OnlyKnown(r.markers) && !e.Restart?
    requires Obs.Has(r.markers, id, Obs.REQUIRE_SEAL_FROM)
    ensures Obs.Has(After(p, d, o, max, r, e).markers, id, Obs.REQUIRE_SEAL_FROM)
  {
    if e.Message? { LearningGrows(p, d, o, max, r, e); }
  }

  /** In one process a marker stays in memory, whatever the writes do. */
  lemma {:induction false} MemoryKeeps(p: Platform, d: Destination, o: G.Options, max: nat, states: seq<Ratchet>,
                                       events: seq<Event>, id: Text, i: nat, k: nat)
    requires Runs(p, d, o, max, states, events) && i <= k < |states| && NoRestart(events, i, k)
    requires Obs.Has(states[i].markers, id, Obs.REQUIRE_SEAL_FROM)
    ensures Obs.Has(states[k].markers, id, Obs.REQUIRE_SEAL_FROM)
    decreases k
  {
    if i < k {
      MemoryKeeps(p, d, o, max, states, events, id, i, k - 1);
      RunKeeps(p, d, o, max, states, events, id, 0, k - 1);
      EventRemembers(p, d, o, max, states[k - 1], events[k - 1], id);
    }
  }

  /** Once a sealed delivery from an origin has been recorded, no later clear message from that origin is delivered,
      whatever arrives and however the guard stands: within the same process; and across any number of restarts from the
      file, if some write of the marker, that of the delivery itself or any later one, landed before the first. */
  lemma NoLaterClearDelivery(p: Platform, d: Destination, o: G.Options, max: nat, states: seq<Ratchet>,
                             events: seq<Event>, i: nat, k: nat, j: nat)
    requires Runs(p, d, o, max, states, events) && i < k <= j < |events| && events[i].Message? && events[j].Message?
    requires var first := OutcomeOf(p, d, o, states[i], events[i]);
             && first.Delivered? && first.sealed
             && Obs.Has(states[i + 1].markers, first.who.origin, Obs.REQUIRE_SEAL_FROM)
             && NoRestart(events, i + 1, k)
             && (k < j ==> Obs.Has(Obs.Load(Obs.NONE, max, states[k].saved), first.who.origin, Obs.REQUIRE_SEAL_FROM))
    ensures var first, later := OutcomeOf(p, d, o, states[i], events[i]), OutcomeOf(p, d, o, states[j], events[j]);
            later.Delivered? && later.who.origin == first.who.origin ==> later.sealed
  {
    var id := OutcomeOf(p, d, o, states[i], events[i]).who.origin;
    MemoryKeeps(p, d, o, max, states, events, id, i + 1, k);
    RunKeeps(p, d, o, max, states, events, id, k, j);
    Refuses(p, d, o, states[j], events[j], id);
  }

  lemma Refuses(p: Platform, d: Destination, o: G.Options, r: Ratchet, e: Event, id: Text)
    requires e.Message? && Obs.Has(r.markers, id, Obs.REQUIRE_SEAL_FROM)
    ensures var later := OutcomeOf(p, d, o, r, e); later.Delivered? && later.who.origin == id ==> later.sealed
  {
    var later := OutcomeOf(p, d, o, r, e);
    if later.Delivered? && later.who.origin == id { MarkedRefusesClear(p, d, o, r, e); }
  }

  /** A sealed delivery is recorded and written exactly when there is room for its origin or it is marked already, and
      the write it then needs lands. */
  lemma SealedDeliveryMarksIff(p: Platform, d: Destination, o: G.Options, max: nat, r: Ratchet, e: Event)
    requires Sound(r, max) && Writes(p, d, o, max, r, e) && e.Message?
    requires OutcomeOf(p, d, o, r, e).Delivered? && OutcomeOf(p, d, o, r, e).sealed
    ensures var id := OutcomeOf(p, d, o, r, e).who.origin;
            Marked(After(p, d, o, max, r, e), max, id)
            <==> Marked(r, max, id)
                 || (e.landed.Some? && !Obs.Has(r.markers, id, Obs.REQUIRE_SEAL_FROM)
                     && (Obs.OriginId(id) in r.markers.entries || |r.markers.order| < max))
  {
    var out := OutcomeOf(p, d, o, r, e);
    var id := out.who.origin;
    var r' := After(p, d, o, max, r, e);
    EventKeeps(p, d, o, max, r, e, id);
    LearningGrows(p, d, o, max, r, e);
    OriginIsDigest(p, Armed(d, r.markers), o, e.guard, e.checkAt, e.admitAt, e.w);
    Obs.MarkersOnlyGrow(r.markers, max, id, Obs.REQUIRE_SEAL_FROM);
    var m :| FileOf(r, max, m);
    Obs.ReloadKeepsMarkers(m, max, r.saved);
    if r'.markers != r.markers && e.landed.Some? { Obs.ReloadKeepsMarkers(r'.markers, max, r'.saved); }
  }

  /** A refusal or a clear delivery records nothing of its origin. */
  lemma OnlySealedTeaches(m: Obs.Markers, max: nat, out: Outcome)
    ensures !(out.Delivered? && out.sealed) ==> Learned(m, max, out) == m
    ensures out.Delivered? && out.sealed && Obs.Sized(m, max) && |m.order| < max ==>
              Obs.Has(Learned(m, max, out), out.who.origin, Obs.REQUIRE_SEAL_FROM)
  {
  }

  // -------------------------------------------------------------------- sealed replies

  lemma ReplyReads(messageId: Text, body: Value)
    ensures var v := ReplyEnvelope(messageId, body);
            && Reading(false, v) == Obj([(MESSAGE_ID, Str(messageId)), (BODY, Reading(false, body))])
            && Enveloped(Reading(false, v))
            && Get(Reading(false, v).entries, MESSAGE_ID) == Str(messageId)
            && Get(Reading(false, v).entries, BODY) == Reading(false, body)
  {
    NamesAreTwo();
    var said := if body.Undefined? then Null else body;
    var v := Obj([(MESSAGE_ID, Str(messageId)), (BODY, said)]);
    var es := v.entries;
    var last: seq<Entry> := es[1..];
    assert last == [(BODY, said)] && last[1..] == [];
    assert Defined(last) == last;
    assert Defined(es) == [es[0]] + Defined(last);
    assert [es[0]] + last == es && Visited(false, es) == es;
    assert ReadingEntries(false, v, last) == [(BODY, Reading(false, said))];
    assert ReadingEntries(false, v, es) == [(MESSAGE_ID, Str(messageId))] + ReadingEntries(false, v, last);
    var read := Obj([(MESSAGE_ID, Str(messageId)), (BODY, Reading(false, body))]);
    assert read.entries[0].0 == MESSAGE_ID && read.entries[1].0 == BODY;
    assert read.entries[1..] == [(BODY, Reading(false, body))];
  }

  /** A sealed reply opens, at the origin it was sealed for and only under the id it answers, as the consumer's
      response. */
  lemma ReplyOpensIff(p: Platform, self: Key, responseKey: Text, messageId: Text, body: Value, nonce: nat,
                      destination: Text, expected: Text, mine: Key)
    requires ReadsJson(p) && SealResponse(p, self, responseKey, messageId, body, nonce).Some?
    requires p.x25519(responseKey) == Some(mine)
    ensures var r := OpenResponse(p, Genuine(SealResponse(p, self, responseKey, messageId, body, nonce).value),
                                  destination, expected, Some(mine));
            && (r.Ok? <==> KeyIdOf(Some(self)) == Some(KeyId(destination)) && expected == messageId)
            && (r.Ok? ==> r.value == Reading(false, body))
  {
    ReplyReads(messageId, body);
    assert p.parse(Stringify(ReplyEnvelope(messageId, body))) == Some(Reading(false, ReplyEnvelope(messageId, body)));
  }

  /** What an honest destination seals: replies, and messages of its own. */
  datatype Sealing = Reply(self: Key, responseKey: Text, messageId: Text, body: Value, nonce: nat) | Request(x: Input)

  function BlockOf(p: Platform, s: Sealing): Option<Block> {
    match s
    case Reply(self, responseKey, messageId, body, nonce) => SealResponse(p, self, responseKey, messageId, body, nonce)
    case Request(x) =>
      if Wrap(p, x).Ok? && x.sealTo.Some? then Some(Transported(x).block) else None
  }

  /** Every block signed by that key is one it sealed. */
  ghost predicate SealedByItself(p: Platform, signer: KeyId, sealings: set<Sealing>, b: Block) {
    b.signer == Some(signer) ==> exists s :: s in sealings && BlockOf(p, s) == Some(b)
  }

  /** The accepted content is what the destination sealed as the reply to that id; or it is a request the destination
      sealed to this machine whose own body is a reply envelope for that id. */
  lemma ReplyAgreement(p: Platform, c: Carried, destination: Text, messageId: Text, mine: Key, sealings: set<Sealing>)
    returns (s: Sealing)
    requires ReadsJson(p) && OpenResponse(p, c, destination, messageId, Some(mine)).Ok?
    requires c.Genuine? ==> SealedByItself(p, KeyId(destination), sealings, c.block)
    ensures s in sealings && c.Genuine? && BlockOf(p, s) == Some(c.block)
    ensures c.block.recipient.kind == mine.kind && c.block.recipient.id == mine.id
    ensures var body := OpenResponse(p, c, destination, messageId, Some(mine)).value;
            && (s.Reply? ==> s.messageId == messageId && body == Reading(false, s.body))
            && (s.Request? ==>
                  var v := Reading(false, Inner(s.x));
                  Enveloped(v) && Get(v.entries, MESSAGE_ID) == Str(messageId) && body == Get(v.entries, BODY))
  {
    s :| s in sealings && BlockOf(p, s) == Some(c.block);
    match s
    case Reply(_, _, id, body, _) =>
      ReplyReads(id, body);
      assert p.parse(Stringify(ReplyEnvelope(id, body))) == Some(Reading(false, ReplyEnvelope(id, body)));
    case Request(x) => assert p.parse(Stringify(Inner(x))) == Some(Reading(false, Inner(x)));
  }

  /** A sealed request is answered sealed or with nothing, whatever the consumer returns. */
  lemma ReplyModeFollowsRequest(p: Platform, self: Key, id: KeyId, out: Outcome, response: Value, nonce: nat)
    ensures var a := AnswerTo(p, self, id, out, response, nonce);
            && (a.body.ClearBody? <==> out.Delivered? && !out.sealed)
            && (a.body.SealedBody? ==> out.Delivered? && out.responseKey.Some?)
            && (a.body.SealedBody? ==> a.body.block.plaintext == Stringify(ReplyEnvelope(out.who.messageId, response)))
  {
  }

  // -------------------------------------------------------------------------- receipts

  /** One message as its destination handled it. */
  datatype Handling = Handling(w: Wrapper, out: Outcome, answer: Answer)

  /** The log of an honest destination: each answer follows from opening that wrapper with some guard and markers. */
  ghost predicate Handled(p: Platform, d: Destination, o: G.Options, self: Key, h: Handling) {
    exists m: Obs.Markers, g: G.Guard, checkAt: int, admitAt: int, response: Value, nonce: nat ::
      HandledAs(p, d, o, self, h, m, g, checkAt, admitAt, response, nonce)
  }

  ghost predicate HandledAs(p: Platform, d: Destination, o: G.Options, self: Key, h: Handling, m: Obs.Markers,
                            g: G.Guard, checkAt: int, admitAt: int, response: Value, nonce: nat)
  {
    && KeyIdOf(Some(self)).Some? && KeyIdOf(Some(self)).value.text == d.self
    && h.out == Open(p, Armed(d, m), o, g, checkAt, admitAt, h.w).1
    && h.answer == AnswerTo(p, self, KeyIdOf(Some(self)).value, h.out, response, nonce)
  }

  /** A verified `delivered` receipt proves the delivery: the honest destination handed its consumer what this origin
      wrapped under that id. */
  lemma ReceiptProvesDelivery(p: Platform, d: Destination, o: G.Options, self: Key, h: Handling, r: SignedReceipt,
                              honest: KeyId, messageId: Text, wraps: set<Input>, log: set<Value>)
    returns (x: Input)
    requires Handled(p, d, o, self, h) && h.answer.receipt == Some(r)
    requires ReceiptVerifies(r, KeyId(d.self), honest.text, messageId) && r.receipt.refusal.None?
    requires ReadsJson(p) && SignsOnly(p, honest, wraps, log) && Unforged(honest, log, h.w)
             && NoCollision(p, wraps, h.w)
    ensures x in wraps && x.privateKey == Some(honest) && x.messageId == messageId && x.destination == d.self
    ensures h.out.Delivered? && Arrives(p, x) == Ok((h.out.body, h.out.responseKey))
  {
    var m, g, checkAt, admitAt, response, nonce :| HandledAs(p, d, o, self, h, m, g, checkAt, admitAt, response, nonce);
    x := Agreement(p, Armed(d, m), o, g, checkAt, admitAt, h.w, honest, wraps, log);
  }
}
