/** A send from end to end: when it goes out and how, what it teaches, and how its result reads. */
module SendLaws {
  import opened JsText
  import opened Wrappers
  import opened Keys
  import opened Json
  import opened RouteManifest
  import opened RoutedMessage
  import opened RoutePlugin
  import opened MessageLaws
  import opened KeyStoreLaws
  import RouteDelivery
  import Peers
  import Directory
  import KeyStore

  // -------------------------------------------------------------------------- deciding

  /** The only key a send to that destination may be sealed to: the directory's, or while that knows nothing the
      approved one. */
  function SealingKey(tier0: Directory.Posture, store: KeyStore.Store, id: KeyId): Option<Key> {
    match tier0.state
    case Verified => tier0.key
    case Unverified => KeyStore.RecordSealKey(store, id)
    case _ => None
  }

  /** Why there is none. */
  function WhyNoKey(tier0: Directory.Posture, store: KeyStore.Store, id: KeyId): Why {
    match tier0.state
    case Conflict => Tier0Conflict
    case Reverify => Tier0Reverify
    case Verified => Incoherent
    case Unverified =>
      match KeyStore.RecordState(store, id)
      case RecordConflict => Tier1Conflict
      case RecordCarried => Tier1Pending
      case NoRecord => NoKey
      case RecordApproved => Incoherent
  }

  /** What was asked to be public goes out clear, unless it is data for a destination whose held record asks for sealing
      while the directory knows nothing of it. Everything else goes out sealed to the one key there is, if this machine
      can open the reply, and otherwise not at all. */
  lemma PlannedIs(p: Platform, s: Sender, dest: Key, d: Draft, tier0: Directory.Posture, store: KeyStore.Store)
    ensures var plan := Planned(p, s, dest, d, tier0, store);
            match KeyIdOf(Some(dest))
            case None => plan == NoDestination
            case Some(id) =>
              var probe := d.payload.Null? || d.payload.Undefined?;
              var demoted := d.public && !probe && tier0.state.Unverified? && KeyStore.RecordFloor(store, id);
              var key := SealingKey(tier0, store, id);
              if d.public && !demoted then GoesOut(plan, p, Outgoing(s, id, d, None))
              else if key.None? then plan == SealRefused(WhyNoKey(tier0, store, id), demoted)
              else if s.sealKey.None? then plan == NoResponseKey
              else GoesOut(plan, p, Outgoing(s, id, d, Some(SealTo(key.value, Some(s.sealPem)))))
  {
  }

  /** The resolver by itself: nothing it has not been told counts as permission. */
  lemma UnknownIsRefused(tier0: Option<Directory.Posture>, tier1: Option<Tier1>)
    ensures Resolve(tier0, tier1, true) == Cleartext
    ensures tier0.None? ==> Resolve(tier0, tier1, false) == Refuse(UnknownState)
    ensures tier0.Some? && tier0.value.state.Unverified? && tier1.None? ==>
              Resolve(tier0, tier1, false) == Refuse(UnknownState)
    ensures tier0.Some? && tier0.value.state.Verified? && tier0.value.key.None? ==>
              Resolve(tier0, tier1, false) == Refuse(Incoherent)
    ensures tier0.Some? && tier0.value.state.Unverified? && tier1 == Some(Tier1(KeyStore.RecordApproved, None)) ==>
              Resolve(tier0, tier1, false) == Refuse(Incoherent)
    ensures Resolve(tier0, tier1, false) != Cleartext
  {
  }

  /** The message as its origin wraps it. */
  function Outgoing(s: Sender, id: KeyId, d: Draft, sealTo: Option<SealTo>): Input {
    Input(s.record, s.privateKey, id.text, d.payload, d.messageId, d.now, s.validity, sealTo, d.nonce)
  }

  /** It is emitted as wrapped, in that mode, or it cannot be wrapped. */
  predicate GoesOut(plan: Plan, p: Platform, x: Input) {
    match Wrap(p, x)
    case Ok(w) => plan == Emit(w, x.sealTo.Some?)
    case Err(e) => plan == CannotWrap(e)
  }

  // -------------------------------------------------------------------------- learning

  /** What the directory knows of a destination supersedes what was discovered of it, and nothing else is dropped. */
  lemma Tier0Supersedes(store: KeyStore.Store, id: KeyId, tier0: Directory.Posture)
    ensures var after := StoreAfter(store, id, tier0);
            && OnlyTouches(store, after, id)
            && (if tier0.state.Unverified? then
                after == store else KeyStore.RecordState(after, id) == KeyStore.NoRecord)
  {
  }

  /** A reply teaches by the record it carries, as any record seen for that destination does, and no other way. */
  lemma ReplyTeaches(wire: Wire, store: KeyStore.Store, max: nat, id: KeyId, response: Value, now: int,
                     stamp: Option<nat>)
    ensures var after := Taught(wire, store, max, id, response, now, stamp);
            var carried := if response.Obj? then Get(response.entries, RECORD) else Undefined;
            if !Truthy(carried) then after == store
            else after == KeyStore.Observe(store, max, id, wire.record(carried), now, stamp).store
  {
  }

  // --------------------------------------------------------------------------- reading

  /** A receipt is an object in its field; it counts exactly when the destination signed it for this message. */
  lemma ReceiptIsJudged(wire: Wire, response: Value, destination: KeyId, self: Text, messageId: Text)
    ensures var v := JudgeReceipt(wire, response, destination, self, messageId);
            var carried := if response.Obj? then Get(response.entries, RECEIPT) else Undefined;
            && (v == NoReceipt <==> !carried.Obj? && !carried.Arr?)
            && (forall refusal :: v == VerifiedReceipt(refusal) <==>
                  (carried.Obj? || carried.Arr?)
                  && wire.receipt(carried)
                     == RouteDelivery.SignedReceipt(destination,
                          RouteDelivery.Receipt(self, destination.text, messageId, 0, refusal)))
  {
  }

  /** The reason of a refusal: this machine's own, or the one a response that calls itself refused gives. */
  function ReasonGiven(r: RouteResult): Option<Text> {
    if r.internal.Some? then r.internal
    else if r.response.Obj? && Get(r.response.entries, REFUSED) == Bool(true) && Get(r.response.entries, REASON).Str?
    then Some(Get(r.response.entries, REASON).s) else None
  }

  function Kept(v: Value): Value { if Truthy(v) then v else Undefined }

  /** A refusal ends as delivered and refused, marked as a duplicate if it says so. This machine's own is written out,
      and keeps the record and the receipt it came with; a claimed one stands as it is, and anything else is
      untouched. */
  lemma RefusalIsFinal(r: RouteResult)
    ensures var (n, reason) := (Normalize(r), ReasonGiven(r));
            && (reason.None? ==> n == r)
            && (reason.Some? ==>
                  && n.delivered && n.refused && n.internal.None?
                  && (n.duplicate <==> r.duplicate || reason.value == REPLAYED
                                       || Field(r.response, DUPLICATE) == Bool(true)))
            && (reason.Some? && r.internal.None? ==> n.response == r.response)
            && (r.internal.Some? ==>
                  && n.response.Obj?
                  && Field(n.response, RECEIVED) == Bool(false) && Field(n.response, REFUSED) == Bool(true)
                  && Field(n.response, REASON) == Str(reason.value)
                  && (Field(n.response, DUPLICATE) == Bool(true)
                      <==> reason.value == REPLAYED || Field(r.response, DUPLICATE) == Bool(true))
                  && Field(n.response, RECORD) == Kept(Field(r.response, RECORD))
                  && Field(n.response, RECEIPT) == Kept(Field(r.response, RECEIPT)))
  {
    if r.internal.Some? {
      var reason := r.internal.value;
      var duplicate := reason == REPLAYED || Field(r.response, DUPLICATE) == Bool(true);
      OwnRefusal(reason, duplicate, Field(r.response, RECORD), Field(r.response, RECEIPT));
    }
  }

  /** One more field in front, if it is there at all. */
  lemma GetFrom(there: bool, e: Entry, rest: seq<Entry>, k: Text)
    ensures Get((if there then [e] else []) + rest, k) == if there && e.0 == k then e.1 else Get(rest, k)
  {
    assert ([e] + rest)[1..] == rest && [] + rest == rest;
  }

  /** What this machine's own refusal says after its three fixed fields. */
  function RefusalRest(duplicate: bool, record: Value, receipt: Value): seq<Entry> {
    (if duplicate then [(DUPLICATE, Bool(true))] else []) + (Optionally(RECORD, record) + Optionally(RECEIPT, receipt))
  }

  lemma RestHolds(duplicate: bool, record: Value, receipt: Value, k: Text)
    ensures Get(RefusalRest(duplicate, record, receipt), k)
         == if duplicate && k == DUPLICATE then Bool(true)
            else if Truthy(record) && k == RECORD then record
            else if Truthy(receipt) && k == RECEIPT then receipt else Undefined
  {
    var none: seq<Entry> := [];
    assert Optionally(RECEIPT, receipt) + none == Optionally(RECEIPT, receipt);
    GetFrom(duplicate, (DUPLICATE, Bool(true)), Optionally(RECORD, record) + Optionally(RECEIPT, receipt), k);
    GetFrom(Truthy(record), (RECORD, record), Optionally(RECEIPT, receipt), k);
    GetFrom(Truthy(receipt), (RECEIPT, receipt), none, k);
  }

  lemma FixedHold(reason: Text, rest: seq<Entry>, k: Text)
    ensures Get([(RECEIVED, Bool(false)), (REFUSED, Bool(true)), (REASON, Str(reason))] + rest, k)
         == if k == RECEIVED then Bool(false) else if k == REFUSED then Bool(true)
            else if k == REASON then Str(reason) else Get(rest, k)
  {
    var (a, b, c) := ((RECEIVED, Bool(false)), (REFUSED, Bool(true)), (REASON, Str(reason)));
    assert [a, b, c] + rest == [a] + ([b] + ([c] + rest));
    GetFrom(true, a, [b] + ([c] + rest), k);
    GetFrom(true, b, [c] + rest, k);
    GetFrom(true, c, rest, k);
  }

  lemma NamesApart()
    ensures REFUSED != RECEIVED && REASON !in {RECEIVED, REFUSED}
    ensures DUPLICATE !in {RECEIVED, REFUSED, REASON} && RECORD !in {RECEIVED, REFUSED, REASON, DUPLICATE}
    ensures RECEIPT !in {RECEIVED, REFUSED, REASON, DUPLICATE, RECORD}
  {
    assert |RECEIVED| == 8 && |REFUSED| == 7 && |REASON| == 6 && |DUPLICATE| == 9 && |RECORD| == 14 && |RECEIPT| == 15;
  }

  lemma OwnRefusal(reason: Text, duplicate: bool, record: Value, receipt: Value)
    ensures var es := [(RECEIVED, Bool(false)), (REFUSED, Bool(true)), (REASON, Str(reason))]
                      + (if duplicate then [(DUPLICATE, Bool(true))] else [])
                      + Optionally(RECORD, record) + Optionally(RECEIPT, receipt);
            && Get(es, RECEIVED) == Bool(false) && Get(es, REFUSED) == Bool(true) && Get(es, REASON) == Str(reason)
            && (Get(es, DUPLICATE) == Bool(true) <==> duplicate)
            && Get(es, RECORD) == Kept(record) && Get(es, RECEIPT) == Kept(receipt)
  {
    var rest := RefusalRest(duplicate, record, receipt);
    var fixed := [(RECEIVED, Bool(false)), (REFUSED, Bool(true)), (REASON, Str(reason))];
    assert fixed + (if duplicate then [(DUPLICATE, Bool(true))] else []) + Optionally(RECORD, record)
           + Optionally(RECEIPT, receipt) == fixed + rest;
    NamesApart();
    forall k ensures Get(fixed + rest, k) == if k == RECEIVED then Bool(false) else if k == REFUSED then Bool(true)
                                             else if k == REASON then Str(reason) else Get(rest, k)
    {
      FixedHold(reason, rest, k);
    }
    RestHolds(duplicate, record, receipt, DUPLICATE);
    RestHolds(duplicate, record, receipt, RECORD);
    RestHolds(duplicate, record, receipt, RECEIPT);
  }

  lemma {:induction false} DropIs(es: seq<Entry>, k: Text)
    ensures forall e :: e in Drop(es, k) <==> e in es && e.0 != k
  {
    if es != [] { DropIs(es[1..], k); }
  }

  /** After a clear send a sealed field is dropped unread, and the rest of the result is as it came. */
  lemma ClearReplyIs(p: Platform, wire: Wire, r: RouteResult, destination: Text, messageId: Text, mine: Option<Key>)
    ensures var (settled, note) := Settle(p, wire, r, false, destination, messageId, mine);
            && note == ClearExpected && settled == r.(response := settled.response)
            && (!r.response.Obj? ==> settled.response == r.response)
            && (r.response.Obj? ==>
                  && settled.response.Obj?
                  && forall e :: e in settled.response.entries <==> e in r.response.entries && e.0 != SEALED_RESPONSE)
  {
    if r.response.Obj? {
      DropIs(r.response.entries, SEALED_RESPONSE);
      if !Has(r.response.entries, SEALED_RESPONSE) {
        forall e | e in r.response.entries ensures e.0 != SEALED_RESPONSE {
          var i :| 0 <= i < |r.response.entries| && r.response.entries[i] == e;
        }
      }
    }
  }

  /** After a sealed send only the response may change, a withheld reply says why, and nothing undelivered is opened. */
  lemma SealedReplyIs(p: Platform, wire: Wire, r: RouteResult, destination: Text, messageId: Text, mine: Option<Key>)
    ensures var (settled, note) := Settle(p, wire, r, true, destination, messageId, mine);
            && settled == r.(response := settled.response)
            && (!r.delivered || r.refused ==> note == NothingDelivered && settled == r)
            && (r.delivered && !r.refused ==>
                  if !r.response.Obj? || !Has(r.response.entries, SEALED_RESPONSE) then note == WithheldReply(None)
                  else
                    var c := wire.carried(Get(r.response.entries, SEALED_RESPONSE));
                    match WhyReplyRefused(p, c, destination, messageId, mine)
                    case Some(why) => note == WithheldReply(Some(why))
                    case None => note == SealedReply)
  {
    if r.response.Obj? {
      ReplyRefusedIff(p, wire.carried(Get(r.response.entries, SEALED_RESPONSE)), destination, messageId, mine);
    }
  }

  /** What survives a withheld reply: its record and its receipt, where it has them. */
  lemma WithheldKeepsAttachments(p: Platform, wire: Wire, r: RouteResult, destination: Text, messageId: Text,
                                 mine: Option<Key>)
    requires Settle(p, wire, r, true, destination, messageId, mine).1.WithheldReply?
    ensures var settled := Settle(p, wire, r, true, destination, messageId, mine).0.response;
            && settled.Obj?
            && forall k, v :: (k, v) in settled.entries
                 <==> (k == RECORD || k == RECEIPT) && Truthy(v) && v == Field(r.response, k)
  {
  }

  /** What the caller is told: of the result, once any refusal in it is final, under the destination's and this
      machine's own names. */
  lemma CallerIsTold(p: Platform, wire: Wire, s: Sender, id: KeyId, messageId: Text, sealed: bool, raw: RouteResult)
    ensures var (sent, r) := (Settled(p, wire, s, id, messageId, sealed, raw), Normalize(raw));
            && sent.Sent? && (sent.result, sent.note) == Settle(p, wire, r, sealed, id.text, messageId, s.sealKey)
            && (s.privateKey.Some? ==>
                  sent.receipt == JudgeReceipt(wire, r.response, id, s.privateKey.value.text, messageId))
  {
  }
}
