/** Confidential by default: when a send may be clear, whose key a sealed one uses, and what a sealed one lets back
    in. */
module SendProofs {
  import opened JsText
  import opened Wrappers
  import opened Keys
  import opened Json
  import opened RouteManifest
  import opened RoutedMessage
  import opened RoutedMessageProofs
  import opened RoutePlugin
  import RouteDelivery
  import Peers
  import Directory
  import KeyStore
  import KeyStoreProofs

  // ------------------------------------------------------------------- what leaves

  /** The wrapper carries ciphertext for one sealing key. */
  predicate SealedFor(w: Wrapper, key: Key) {
    && w.Wrapper? && w.payload.Base64? && w.payload.bytes.SealedBytes?
    && w.payload.bytes.block.recipient == key
  }

  /** The wrapper's payload is the plaintext itself. */
  predicate InTheClear(w: Wrapper) { w.Wrapper? && w.payload.Base64? && w.payload.bytes.Plain? }

  lemma WrapMode(p: Platform, s: Sender, id: KeyId, d: Draft, sealTo: Option<SealTo>)
    requires Wrapping(p, s, id, d, sealTo).Emit?
    ensures var plan := Wrapping(p, s, id, d, sealTo);
            && plan.sealed == sealTo.Some?
            && if sealTo.Some? then SealedFor(plan.w, sealTo.value.recipient) else InTheClear(plan.w)
  {
  }

  /** The key a plan may seal to, and why it may. */
  ghost predicate Entitled(tier0: Directory.Posture, store: KeyStore.Store, id: KeyId, key: Key) {
    || tier0 == Directory.Posture(Peers.Verified, Some(key))
    || (tier0.state.Unverified? && KeyStore.RecordSealKey(store, id) == Some(key))
  }

  /** Whatever the directory and the store have come to hold: a send not marked public emits ciphertext for an entitled
      key, or nothing. */
  lemma ConfidentialByDefault(p: Platform, s: Sender, dest: Key, d: Draft, tier0: Directory.Posture,
                              store: KeyStore.Store)
    requires Planned(p, s, dest, d, tier0, store).Emit? && !d.public
    ensures var plan := Planned(p, s, dest, d, tier0, store);
            && plan.sealed
            && exists key :: SealedFor(plan.w, key) && Entitled(tier0, store, KeyIdOf(Some(dest)).value, key)
  {
    PlanFollowsDecision(p, s, dest, d, tier0, store);
  }

  function Target(dest: Key, d: Draft, tier0: Directory.Posture, store: KeyStore.Store): Decision
    requires KeyIdOf(Some(dest)).Some?
  {
    var id := KeyIdOf(Some(dest)).value;
    Resolve(Some(tier0), Some(Tier1(KeyStore.RecordState(store, id), KeyStore.RecordSealKey(store, id))),
            d.public && !Demoted(d, tier0, KeyStore.RecordFloor(store, id)))
  }

  lemma PlanFollowsDecision(p: Platform, s: Sender, dest: Key, d: Draft, tier0: Directory.Posture,
                            store: KeyStore.Store)
    requires Planned(p, s, dest, d, tier0, store).Emit?
    ensures KeyIdOf(Some(dest)).Some?
    ensures var (plan, target) := (Planned(p, s, dest, d, tier0, store), Target(dest, d, tier0, store));
            && plan.sealed == target.Seal? && (target.Seal? || target.Cleartext?)
            && (target.Seal? ==>
                SealedFor(plan.w, target.key) && Entitled(tier0, store, KeyIdOf(Some(dest)).value, target.key))
            && (target.Cleartext? ==> InTheClear(plan.w))
  {
    var id := KeyIdOf(Some(dest)).value;
    match Target(dest, d, tier0, store)
    case Seal(_, key) => WrapMode(p, s, id, d, Some(SealTo(key, Some(s.sealPem))));
    case Cleartext => WrapMode(p, s, id, d, None);
    case Refuse(_) =>
  }

  /** What goes out goes out clear exactly when it was marked public and is not data for a destination whose held record
      asks for sealing while no walk has spoken. */
  lemma ClearIff(p: Platform, s: Sender, dest: Key, d: Draft, tier0: Directory.Posture, store: KeyStore.Store)
    requires Planned(p, s, dest, d, tier0, store).Emit?
    ensures KeyIdOf(Some(dest)).Some?
    ensures InTheClear(Planned(p, s, dest, d, tier0, store).w)
       <==> d.public && !(!IsProbe(d.payload) && tier0.state.Unverified?
                          && KeyStore.RecordFloor(store, KeyIdOf(Some(dest)).value))
  {
    PlanFollowsDecision(p, s, dest, d, tier0, store);
  }

  /** Over any history of records relays supplied, evictions, approvals, retirements and restarts: the key a message is
      sealed to is the one every verified alias of the destination agrees on, none being in conflict or awaiting a walk,
      or the key approved for that very destination and named in a record its own identity signed. */
  lemma SealKeyProvenance(p: Platform, s: Sender, dest: Key, d: Draft, tier0: Directory.Posture, ps: Peers.Admitted,
                          max: nat, ops: seq<KeyStoreProofs.StoreOp>, signed: set<KeyStore.SelfRecord>)
    returns (key: Key)
    requires Directory.IsPosture(ps, Directory.Aliases(ps, Some(dest)), tier0)
    requires KeyIdOf(Some(dest)).Some? && KeyStoreProofs.Unforged(ops, KeyIdOf(Some(dest)).value, signed)
    requires var plan := Planned(p, s, dest, d, tier0, KeyStoreProofs.History(KeyStore.EMPTY, max, ops));
             plan.Emit? && plan.sealed
    ensures var names := Directory.Aliases(ps, Some(dest));
            && SealedFor(Planned(p, s, dest, d, tier0, KeyStoreProofs.History(KeyStore.EMPTY, max, ops)).w, key)
            && (|| (Directory.AgreedKey(ps, names, Some(key))
                    && !Directory.SomeIn(ps, names, Peers.Conflict) && !Directory.SomeIn(ps, names, Peers.Reverify))
                || (tier0.state.Unverified? && VouchedFor(max, ops, signed, KeyIdOf(Some(dest)).value, key)))
  {
    var store := KeyStoreProofs.History(KeyStore.EMPTY, max, ops);
    var id := KeyIdOf(Some(dest)).value;
    PlanFollowsDecision(p, s, dest, d, tier0, store);
    key := Target(dest, d, tier0, store).key;
    if tier0.state.Unverified? {
      var env, g := KeyStoreProofs.UsableKeyIsSigned(max, ops, id, signed);
      assert NamedBy(store, ops, signed, id, key, env) && GrantedAt(max, ops, id, key, g);
    }
  }

  /** The store's own entry is this record, which it was shown, which that identity signed, and which names this key. */
  ghost predicate NamedBy(store: KeyStore.Store, ops: seq<KeyStoreProofs.StoreOp>, signed: set<KeyStore.SelfRecord>,
                          id: KeyId, key: Key, env: KeyStore.Envelope)
  {
    && id in store.entries && store.entries[id].record == Some(env) && KeyStoreProofs.WasShown(ops, id, env)
    && env.Envelope? && env.record in signed && KeyIdOf(env.record.publicKey) == Some(id)
    && env.record.sealKey == Some(key)
  }

  /** This very key was granted for this destination, and has been usable since. */
  ghost predicate GrantedAt(max: nat, ops: seq<KeyStoreProofs.StoreOp>, id: KeyId, key: Key, g: nat) {
    && g < |ops| && KeyStoreProofs.Grants(KeyStoreProofs.History(KeyStore.EMPTY, max, ops[..g]), ops[g], id, key)
    && forall m :: g < m <= |ops| ==>
         KeyStore.RecordSealKey(KeyStoreProofs.History(KeyStore.EMPTY, max, ops[..m]), id) == Some(key)
  }

  ghost predicate VouchedFor(max: nat, ops: seq<KeyStoreProofs.StoreOp>, signed: set<KeyStore.SelfRecord>, id: KeyId,
                             key: Key)
  {
    var store := KeyStoreProofs.History(KeyStore.EMPTY, max, ops);
    && KeyStore.RecordSealKey(store, id) == Some(key)
    && (exists env :: NamedBy(store, ops, signed, id, key, env))
    && exists g: nat :: GrantedAt(max, ops, id, key, g)
  }

  // ------------------------------------------------------------------- a body left out

  /** A sealed send gives its reader the payload exactly when there is one. */
  lemma SealedPayloadArrivesIff(p: Platform, s: Sender, dest: Key, d: Draft, tier0: Directory.Posture,
                                store: KeyStore.Store)
    returns (x: Input)
    requires Planned(p, s, dest, d, tier0, store).Emit? && Planned(p, s, dest, d, tier0, store).sealed
    ensures SentAs(p, s, dest, d, Planned(p, s, dest, d, tier0, store).w, x)
    ensures Arrives(p, x).Ok? && Arrives(p, x).value.0 == Reading(false, d.payload) <==> !d.payload.Undefined?
  {
    var id := KeyIdOf(Some(dest)).value;
    x := InputFor(s, id, d, Some(SealTo(Target(dest, d, tier0, store).key, Some(s.sealPem))));
    assert Target(dest, d, tier0, store).Seal?;
    BodyArrivesIff(p, x);
  }

  /** What was wrapped into this. */
  predicate SentAs(p: Platform, s: Sender, dest: Key, d: Draft, w: Wrapper, x: Input) {
    && KeyIdOf(Some(dest)).Some? && x == InputFor(s, KeyIdOf(Some(dest)).value, d, x.sealTo)
    && Wrap(p, x) == Ok(w)
  }

  /** Sealed with no payload at all, the reader is handed the response header itself as the body, and no response
      key. */
  lemma NoPayloadMisframes(p: Platform, s: Sender, dest: Key, d: Draft, tier0: Directory.Posture, store: KeyStore.Store)
    returns (x: Input)
    requires Planned(p, s, dest, d, tier0, store).Emit? && Planned(p, s, dest, d, tier0, store).sealed
    requires d.payload.Undefined?
    ensures SentAs(p, s, dest, d, Planned(p, s, dest, d, tier0, store).w, x) && Misframed(x)
    ensures Arrives(p, x) == Ok((Obj([(HEADER, Str(s.sealPem))]), None))
  {
    x := InputFor(s, KeyIdOf(Some(dest)).value, d, Some(SealTo(Target(dest, d, tier0, store).key, Some(s.sealPem))));
    assert Target(dest, d, tier0, store).Seal?;
    FramedReads(s.sealPem, d.payload);
    FramedShape(s.sealPem, Null);
  }

  // ----------------------------------------------------------------- what comes back

  /** A key record this destination signed, or a receipt it signed for this message. */
  predicate SignedAttachment(wire: Wire, id: KeyId, self: Text, messageId: Text, e: Entry) {
    || (e.0 == RECORD && KeyStore.Verified(wire.record(e.1)) && KeyIdOf(wire.record(e.1).record.publicKey) == Some(id))
    || (e.0 == RECEIPT && RouteDelivery.ReceiptVerifies(wire.receipt(e.1), id, self, messageId))
  }

  /** What the destination sealed for this message, if the response holds it. */
  function SealedContent(p: Platform, wire: Wire, s: Sender, id: KeyId, messageId: Text,
                         response: Value): Option<Value>
  {
    if !response.Obj? || !Has(response.entries, SEALED_RESPONSE) then None
    else
      match OpenResponse(p, wire.carried(Get(response.entries, SEALED_RESPONSE)), id.text, messageId, s.sealKey)
      case Err(_) => None
      case Ok(body) => Some(body)
  }

  /** One field shown to the caller: a signed attachment, or part of what the destination sealed. */
  predicate VouchedEntry(wire: Wire, id: KeyId, self: Text, messageId: Text, content: Option<Value>, e: Entry) {
    SignedAttachment(wire, id, self, messageId, e)
      || (content.Some? && content.value.Obj? && e in content.value.entries)
  }

  /** The promise: whatever the caller of a sealed send is shown is a signed attachment or what the destination sealed
      for that message. Where nothing was opened, nothing counts as sealed. */
  predicate ShowsOnlyVouched(p: Platform, wire: Wire, s: Sender, id: KeyId, messageId: Text, raw: RouteResult,
                             sent: Sent)
    requires sent.Sent?
  {
    var content := if sent.note.SealedReply? then SealedContent(p, wire, s, id, messageId, raw.response) else None;
    var shown := sent.result.response;
    || IsProbe(shown)
    || (content.Some? && !content.value.Obj? && shown == content.value)
    || (shown.Obj? && forall e :: e in shown.entries ==> VouchedEntry(wire, id, SelfText(s), messageId, content, e))
  }

  /** Every field of an entry list is a signed attachment. */
  predicate AllSigned(wire: Wire, id: KeyId, self: Text, messageId: Text, es: seq<Entry>) {
    forall e :: e in es ==> SignedAttachment(wire, id, self, messageId, e)
  }

  /** What the caller of a sealed send can check before believing the promise. Of a delivered, unrefused result: that
      its record and receipt fields, where it has them, are signed by the destination or repeat what it sealed, unless
      the opened reply is no object and so carries neither. Of a result that calls itself refused: nothing makes it
      hold. Of any other undelivered result: that it has no response, or one with only signed fields. */
  predicate Trustworthy(p: Platform, wire: Wire, s: Sender, id: KeyId, messageId: Text, raw: RouteResult) {
    if RefusalReason(raw).Some? then false
    else if raw.delivered && !raw.refused then
      var content := SealedContent(p, wire, s, id, messageId, raw.response);
      || (content.Some? && !content.value.Obj?)
      || forall e :: e in Attachments(raw.response) ==> VouchedEntry(wire, id, SelfText(s), messageId, content, e)
    else
      || IsProbe(raw.response)
      || (raw.response.Obj? && AllSigned(wire, id, SelfText(s), messageId, raw.response.entries))
  }

  lemma {:induction false} SetMembers(es: seq<Entry>, e: Entry)
    ensures e in Set(es, e)
    ensures forall x :: x in Set(es, e) ==> x == e || x in es
    ensures forall x :: x in es && x.0 != e.0 ==> x in Set(es, e)
  {
    if es != [] && es[0].0 != e.0 { SetMembers(es[1..], e); }
  }

  /** Folding the attachments over a reply shows them all, and otherwise only the reply. */
  lemma FoldedMembers(es: seq<Entry>, response: Value)
    ensures forall e :: e in Attachments(response) ==> e in SetAll(es, Attachments(response))
    ensures forall e :: e in SetAll(es, Attachments(response)) ==> e in Attachments(response) || e in es
  {
    FieldNamesDiffer();
    var more := Attachments(response);
    if |more| == 1 {
      SetMembers(es, more[0]);
      assert more[1..] == [];
    } else if |more| == 2 {
      var once := Set(es, more[0]);
      SetMembers(es, more[0]);
      SetMembers(once, more[1]);
      var last: seq<Entry> := more[1..];
      assert last == [more[1]] && last[1..] == [];
      assert SetAll(es, more) == SetAll(once, last);
      assert SetAll(once, last) == SetAll(Set(once, more[1]), []);
      assert more[0] in Set(once, more[1]);
    }
  }

  /** The promise is kept on exactly the trustworthy results. */
  lemma PromiseKeptIff(p: Platform, wire: Wire, s: Sender, id: KeyId, messageId: Text, raw: RouteResult)
    ensures ShowsOnlyVouched(p, wire, s, id, messageId, raw, Settled(p, wire, s, id, messageId, true, raw))
       <==> Trustworthy(p, wire, s, id, messageId, raw)
  {
    if RefusalReason(raw).Some? {
      RefusalNeverVouched(p, wire, s, id, messageId, raw);
    } else if raw.delivered && !raw.refused {
      var content := SealedContent(p, wire, s, id, messageId, raw.response);
      if content.Some? && content.value.Obj? { FoldedMembers(content.value.entries, raw.response); }
    }
  }

  lemma {:induction false} GetIsEntry(es: seq<Entry>, k: Text)
    ensures Get(es, k).Undefined? || (k, Get(es, k)) in es
  {
    if es != [] && es[0].0 != k { GetIsEntry(es[1..], k); }
  }

  lemma RefusalNeverVouched(p: Platform, wire: Wire, s: Sender, id: KeyId, messageId: Text, raw: RouteResult)
    requires RefusalReason(raw).Some?
    ensures !ShowsOnlyVouched(p, wire, s, id, messageId, raw, Settled(p, wire, s, id, messageId, true, raw))
  {
    FieldNamesDiffer();
    var shown := Normalize(raw).response;
    if raw.internal.Some? {
      assert shown.entries[1] == (REFUSED, Bool(true));
    } else {
      GetIsEntry(raw.response.entries, REFUSED);
    }
    assert (REFUSED, Bool(true)) in shown.entries;
  }

  /** So a response that merely calls itself a refusal, which any relay can write, reaches the caller of a sealed send
      as it stands. */
  lemma ClaimedRefusalPassesThrough(p: Platform, wire: Wire, s: Sender, id: KeyId, messageId: Text, raw: RouteResult)
    requires raw.internal.None?
    requires Field(raw.response, REFUSED) == Bool(true) && Field(raw.response, REASON).Str?
    ensures Settled(p, wire, s, id, messageId, true, raw).result.response == raw.response
    ensures Settled(p, wire, s, id, messageId, true, raw).note == NothingDelivered
  {
  }

  /** A first failing input: content of a relay's own, beside a claimed refusal. */
  lemma RelayContentExposed(p: Platform, wire: Wire, s: Sender, id: KeyId, messageId: Text, content: Value)
    returns (raw: RouteResult)
    ensures raw.delivered
    ensures var sent := Settled(p, wire, s, id, messageId, true, raw);
            Field(sent.result.response, BODY) == content && !ShowsOnlyVouched(p, wire, s, id, messageId, raw, sent)
  {
    FieldNamesDiffer();
    var es := [(REFUSED, Bool(true)), (REASON, Str([])), (BODY, content)];
    raw := RouteResult(true, false, false, None, Obj(es));
    var rest: seq<Entry> := es[1..];
    assert rest == [(REASON, Str([])), (BODY, content)] && rest[1..] == [(BODY, content)];
    assert Get(es, REASON) == Get(rest, REASON) && Get(es, BODY) == Get(rest, BODY) == Get(rest[1..], BODY);
    ClaimedRefusalPassesThrough(p, wire, s, id, messageId, raw);
    RefusalNeverVouched(p, wire, s, id, messageId, raw);
  }

  /** A second: an ordinary delivery, its reply withheld, with anything at all in the record's place. */
  lemma UnsignedRecordExposed(p: Platform, wire: Wire, s: Sender, id: KeyId, messageId: Text, junk: Value)
    returns (raw: RouteResult)
    requires Truthy(junk) && !KeyStore.Verified(wire.record(junk))
    ensures raw.delivered && !raw.refused && RefusalReason(raw).None?
    ensures var sent := Settled(p, wire, s, id, messageId, true, raw);
            && sent.note == WithheldReply(None) && sent.result.response == Obj([(RECORD, junk)])
            && !ShowsOnlyVouched(p, wire, s, id, messageId, raw, sent)
  {
    FieldNamesDiffer();
    var es := [(RECORD, junk)];
    raw := RouteResult(true, false, false, None, Obj(es));
    assert Get(es, RECORD) == junk && Get(es, RECEIPT).Undefined? && Get(es, REFUSED).Undefined?;
    assert Attachments(raw.response) == es;
    assert (RECORD, junk) in es;
  }

  /** A reply the destination sealed for this message, with the attachments folded over it. */
  predicate OpenedReply(p: Platform, wire: Wire, response: Value, destination: Text, messageId: Text,
                        mine: Option<Key>, v: Value)
  {
    && response.Obj? && Has(response.entries, SEALED_RESPONSE)
    && var r := OpenResponse(p, wire.carried(Get(response.entries, SEALED_RESPONSE)), destination, messageId, mine);
       r.Ok? && v == if r.value.Obj? then Obj(SetAll(r.value.entries, Attachments(response))) else r.value
  }

  lemma FieldNamesDiffer()
    ensures REFUSED != RECORD && REFUSED != RECEIPT && REFUSED != REASON && REFUSED != BODY && REASON != BODY
    ensures SEALED_RESPONSE != REFUSED && SEALED_RESPONSE != REASON && SEALED_RESPONSE != BODY
    ensures RECORD != RECEIPT && RECORD != SEALED_RESPONSE
  {
    assert |REFUSED| == 7 && |RECORD| == 14 && |RECEIPT| == 15 && |REASON| == 6 && |BODY| == 4
           && |SEALED_RESPONSE| == 22;
  }

  /** A delivered reply is let in exactly when it is sealed as it should be; otherwise only its attachments are. */
  lemma DeliveredReplyIffSealed(p: Platform, wire: Wire, r: RouteResult, destination: Text, messageId: Text,
                                mine: Option<Key>)
    requires r.delivered && !r.refused
    ensures var (settled, note) := Settle(p, wire, r, true, destination, messageId, mine);
            && (note.SealedReply? || note.WithheldReply?)
            && (note.SealedReply? ==> OpenedReply(p, wire, r.response, destination, messageId, mine, settled.response))
            && (note.WithheldReply? ==> settled.response == Obj(Attachments(r.response)))
            && (note.SealedReply? <==> exists v :: OpenedReply(p, wire, r.response, destination, messageId, mine, v))
  {
    var settled := Settle(p, wire, r, true, destination, messageId, mine).0;
    assert OpenedReply(p, wire, r.response, destination, messageId, mine, settled.response)
           || forall v :: !OpenedReply(p, wire, r.response, destination, messageId, mine, v);
  }
}
