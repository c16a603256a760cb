/** The origin's end: whether and to which key a message is sealed, what is sent, and what comes back is let through. */
module RoutePlugin {
  import opened JsText
  import opened Wrappers
  import opened Keys
  import opened Json
  import opened RouteManifest
  import opened RoutedMessage
  import Directory
  import LiveDirectory
  import KeyStore
  import RoutedKeyStore
  import RouteDelivery

  // -------------------------------------------------------------------- the resolver

  /** What the routed key store reports of a destination; `None` for a state the resolver does not know. */
  datatype Tier1 = Tier1(state: KeyStore.State, key: Option<Key>)

  datatype Why = Tier0Conflict | Tier0Reverify | Tier1Conflict | Tier1Pending | NoKey | UnknownState | Incoherent

  datatype Decision = Cleartext | Seal(tier: nat, key: Key) | Refuse(why: Why)

  /** `resolveRoutedSeal`: Tier 0 decides whenever it has a posture; only then an approved Tier-1 key; otherwise
      refuse. */
  function Resolve(tier0: Option<Directory.Posture>, tier1: Option<Tier1>, publicOk: bool): Decision {
    if publicOk then Cleartext
    else if tier0.None? then Refuse(UnknownState)
    else
      match tier0.value.state
      case Verified => if tier0.value.key.None? then Refuse(Incoherent) else Seal(0, tier0.value.key.value)
      case Conflict => Refuse(Tier0Conflict)
      case Reverify => Refuse(Tier0Reverify)
      case Unverified =>
        if tier1.None? then Refuse(UnknownState)
        else
          match tier1.value.state
          case RecordApproved => if tier1.value.key.None? then Refuse(Incoherent) else Seal(1, tier1.value.key.value)
          case RecordConflict => Refuse(Tier1Conflict)
          case RecordCarried => Refuse(Tier1Pending)
          case NoRecord => Refuse(NoKey)
  }

  // ------------------------------------------------------------------------ planning

  /** This machine as an origin. `sealPem` is how its own sealing key is written, when it has one. */
  datatype Sender = Sender(record: KeyStore.SelfRecord, privateKey: Option<KeyId>, sealKey: Option<Key>, sealPem: Text,
                           validity: int)

  datatype Draft = Draft(payload: Value, public: bool, messageId: Text, now: nat, nonce: nat)

  datatype Plan =
    | NoDestination
    | SealRefused(why: Why, demoted: bool)
    | NoResponseKey
    | CannotWrap(error: WrapError)
    | Emit(w: Wrapper, sealed: bool)

  predicate IsProbe(v: Value) { v.Null? || v.Undefined? }

  /** A public send of data to a destination whose held record asks for sealing, while Tier 0 knows nothing of it. */
  predicate Demoted(d: Draft, tier0: Directory.Posture, floor: bool) {
    d.public && !IsProbe(d.payload) && tier0.state.Unverified? && floor
  }

  function InputFor(s: Sender, id: KeyId, d: Draft, sealTo: Option<SealTo>): Input {
    Input(s.record, s.privateKey, id.text, d.payload, d.messageId, d.now, s.validity, sealTo, d.nonce)
  }

  function Wrapping(p: Platform, s: Sender, id: KeyId, d: Draft, sealTo: Option<SealTo>): Plan {
    var w := Wrap(p, InputFor(s, id, d, sealTo));
    if w.Err? then CannotWrap(w.error) else Emit(w.value, sealTo.Some?)
  }

  /** `sendUnchecked` up to the network. */
  function Planned(p: Platform, s: Sender, dest: Key, d: Draft, tier0: Directory.Posture, store: KeyStore.Store): Plan {
    if KeyIdOf(Some(dest)).None? then NoDestination
    else
      var id := KeyIdOf(Some(dest)).value;
      var demoted := Demoted(d, tier0, KeyStore.RecordFloor(store, id));
      var tier1 := Tier1(KeyStore.RecordState(store, id), KeyStore.RecordSealKey(store, id));
      match Resolve(Some(tier0), Some(tier1), d.public && !demoted)
      case Refuse(why) => SealRefused(why, demoted)
      case Seal(_, key) =>
        if s.sealKey.None? then NoResponseKey else Wrapping(p, s, id, d, Some(SealTo(key, Some(s.sealPem))))
      case Cleartext => Wrapping(p, s, id, d, None)
  }

  // ------------------------------------------------------------------- what comes back

  const RECORD: Text := Ascii("__routedRecord")
  const RECEIPT: Text := Ascii("__routedReceipt")
  const SEALED_RESPONSE: Text := Ascii("__routedSealedResponse")
  const REFUSED: Text := Ascii("refused")
  const REASON: Text := Ascii("reason")
  const RECEIVED: Text := Ascii("received")
  const DUPLICATE: Text := Ascii("duplicate")
  const REPLAYED: Text := Ascii("replay:duplicate")

  /** What routing returned. `internal`: the in-process mark of a refusal by this machine itself. */
  datatype RouteResult = RouteResult(delivered: bool, refused: bool, duplicate: bool, internal: Option<Text>,
                                     response: Value)

  function Field(v: Value, k: Text): Value { if v.Obj? then Get(v.entries, k) else Undefined }

  predicate Truthy(v: Value) {
    match v
    case Undefined => false
    case Null => false
    case Bool(b) => b
    case Num(_, mag) => mag != 0
    case Str(s) => s != []
    case _ => true
  }

  /** `...(v ? { [k]: v } : {})`. */
  function Optionally(k: Text, v: Value): seq<Entry> { if Truthy(v) then [(k, v)] else [] }

  function RefusalReason(r: RouteResult): Option<Text> {
    if r.internal.Some? then r.internal
    else if Field(r.response, REFUSED) == Bool(true) && Field(r.response, REASON).Str? then
      Some(Field(r.response, REASON).s)
    else None
  }

  /** `normalizeOpenResult`: a destination's refusal ends the search, and keeps its record and receipt. */
  function Normalize(r: RouteResult): RouteResult {
    if RefusalReason(r).None? then r
    else
      var reason := RefusalReason(r).value;
      var duplicate := reason == REPLAYED || Field(r.response, DUPLICATE) == Bool(true);
      var response :=
        if r.internal.Some? then
          Obj([(RECEIVED, Bool(false)), (REFUSED, Bool(true)), (REASON, Str(reason))]
              + (if duplicate then [(DUPLICATE, Bool(true))] else [])
              + Optionally(RECORD, Field(r.response, RECORD)) + Optionally(RECEIPT, Field(r.response, RECEIPT)))
        else r.response;
      RouteResult(true, true, duplicate || r.duplicate, None, response)
  }

  function Attachments(response: Value): seq<Entry> {
    if response.Obj? then Optionally(RECORD, Field(response, RECORD)) + Optionally(RECEIPT, Field(response, RECEIPT))
    else []
  }

  function Drop(es: seq<Entry>, k: Text): seq<Entry> {
    if es == [] then [] else if es[0].0 == k then Drop(es[1..], k) else [es[0]] + Drop(es[1..], k)
  }

  /** `{ ...es, [k]: v }`. */
  function Set(es: seq<Entry>, e: Entry): seq<Entry> {
    if es == [] then [e] else if es[0].0 == e.0 then [e] + es[1..] else [es[0]] + Set(es[1..], e)
  }

  function SetAll(es: seq<Entry>, more: seq<Entry>): seq<Entry>
    decreases |more|
  {
    if more == [] then es else SetAll(Set(es, more[0]), more[1..])
  }

  datatype SealNote = ClearExpected | NothingDelivered | WithheldReply(why: Option<ResponseReason>) | SealedReply

  /** How values that crossed the wire read: as a sealed object, and as a signed record. */
  datatype Wire = Wire(carried: Value -> Carried, record: Value -> KeyStore.Envelope,
                       receipt: Value -> RouteDelivery.SignedReceipt)

  /** `settleRoutedResponse`. */
  function Settle(p: Platform, wire: Wire, r: RouteResult, expectSealed: bool, destination: Text, messageId: Text,
                  mine: Option<Key>): (RouteResult, SealNote)
  {
    if !expectSealed then
      (if r.response.Obj? && Has(r.response.entries, SEALED_RESPONSE)
       then r.(response := Obj(Drop(r.response.entries, SEALED_RESPONSE))) else r, ClearExpected)
    else if !r.delivered || r.refused then (r, NothingDelivered)
    else
      var attached := Attachments(r.response);
      if !r.response.Obj? || !Has(r.response.entries, SEALED_RESPONSE) then
        (r.(response := Obj(attached)), WithheldReply(None))
      else
        match OpenResponse(p, wire.carried(Get(r.response.entries, SEALED_RESPONSE)), destination, messageId, mine)
        case Err(why) => (r.(response := Obj(attached)), WithheldReply(Some(why)))
        case Ok(body) =>
          (r.(response := if body.Obj? then Obj(SetAll(body.entries, attached)) else body), SealedReply)
  }

  datatype ReceiptVerdict = NoReceipt | BadReceipt | VerifiedReceipt(refusal: Option<Reason>)

  /** `verifyRoutedReceipt`. */
  function JudgeReceipt(wire: Wire, response: Value, destination: KeyId, self: Text, messageId: Text): ReceiptVerdict {
    var carried := Field(response, RECEIPT);
    if !carried.Obj? && !carried.Arr? then NoReceipt
    else
      var r := wire.receipt(carried);
      if RouteDelivery.ReceiptVerifies(r, destination, self, messageId) then VerifiedReceipt(r.receipt.refusal)
      else BadReceipt
  }

  /** The store after a send: Tier 0 supersedes, and an attached record teaches. */
  function StoreAfter(store: KeyStore.Store, id: KeyId, tier0: Directory.Posture): KeyStore.Store {
    if tier0.state.Unverified? then store else KeyStore.Forget(store, id).store
  }

  function Taught(wire: Wire, store: KeyStore.Store, max: nat, id: KeyId, response: Value, now: int, stamp: Option<nat>)
    : KeyStore.Store
  {
    if Truthy(Field(response, RECORD)) then
      KeyStore.Observe(store, max, id, wire.record(Field(response, RECORD)), now, stamp).store
    else store
  }

  // -------------------------------------------------------------------------- sending

  datatype Sent = NotSent(plan: Plan) | Sent(result: RouteResult, note: SealNote, receipt: ReceiptVerdict)

  class RouteSender {
    const platform: Platform
    const wire: Wire
    const self: Sender
    const directory: LiveDirectory.PeerDirectory
    const store: RoutedKeyStore.RoutedKeyStore

    constructor (platform: Platform, wire: Wire, self: Sender, directory: LiveDirectory.PeerDirectory,
                 store: RoutedKeyStore.RoutedKeyStore)
      ensures this.platform == platform && this.wire == wire && this.self == self
      ensures this.directory == directory && this.store == store
    {
      this.platform, this.wire, this.self, this.directory, this.store := platform, wire, self, directory, store;
    }

    /** Decide, drop what Tier 0 supersedes, and wrap. */
    method Prepare(dest: Key, d: Draft) returns (plan: Plan, ghost tier0: Directory.Posture)
      requires store.Valid()
      modifies store
      ensures store.Valid()
      ensures Directory.IsPosture(directory.admitted, Directory.Aliases(directory.admitted, Some(dest)), tier0)
      ensures plan == Planned(platform, self, dest, d, tier0, old(store.View()))
      ensures store.View() == if KeyIdOf(Some(dest)).None? then old(store.View())
                              else StoreAfter(old(store.View()), KeyIdOf(Some(dest)).value, tier0)
    {
      var id := KeyIdOf(Some(dest));
      var posture := directory.SealForIdentity(Some(dest));
      tier0 := posture;
      if id.None? { return NoDestination, tier0; }
      var floor := posture.state.Unverified? && KeyStore.RecordFloor(store.View(), id.value);
      var demoted := d.public && !IsProbe(d.payload) && floor;
      var key := store.RecordSealKey(id.value);
      var tier1 := Tier1(KeyStore.RecordState(store.View(), id.value), key);
      var target := Resolve(Some(posture), Some(tier1), d.public && !demoted);
      if !posture.state.Unverified? { var _, _ := store.Forget(id.value); }
      if target.Refuse? { return SealRefused(target.why, demoted), tier0; }
      if target.Seal? && self.sealKey.None? { return NoResponseKey, tier0; }
      var sealTo := if target.Seal? then Some(SealTo(target.key, Some(self.sealPem))) else None;
      plan := Wrapping(platform, self, id.value, d, sealTo);
    }

    /** Learn from what came back, judge its receipt, and let through what may be let through. */
    method Receive(id: KeyId, messageId: Text, sealed: bool, raw: RouteResult, seenAt: int, stamp: Option<nat>)
      returns (sent: Sent)
      requires store.Valid()
      modifies store
      ensures store.Valid()
      ensures store.View()
              == Taught(wire, old(store.View()), store.maxEntries, id, Normalize(raw).response, seenAt, stamp)
      ensures sent == Settled(platform, wire, self, id, messageId, sealed, raw)
    {
      var r := Normalize(raw);
      var record := Field(r.response, RECORD);
      if Truthy(record) { var _, _ := store.Observe(id, wire.record(record), seenAt, stamp); }
      var receipt := JudgeReceipt(wire, r.response, id, SelfText(self), messageId);
      var (settled, note) := Settle(platform, wire, r, sealed, id.text, messageId, self.sealKey);
      sent := Sent(settled, note, receipt);
    }

    /** `sendUnchecked`, over a network that may answer anything. */
    method Send(dest: Key, d: Draft, network: Wrapper -> RouteResult, seenAt: int, stamp: Option<nat>)
      returns (sent: Sent, ghost tier0: Directory.Posture)
      requires store.Valid()
      modifies store
      ensures store.Valid()
      ensures Directory.IsPosture(directory.admitted, Directory.Aliases(directory.admitted, Some(dest)), tier0)
      ensures var plan := Planned(platform, self, dest, d, tier0, old(store.View()));
              sent == if plan.Emit?
                      then Settled(platform, wire, self, KeyIdOf(Some(dest)).value, d.messageId, plan.sealed,
                                   network(plan.w))
                      else NotSent(plan)
      ensures var plan := Planned(platform, self, dest, d, tier0, old(store.View()));
              var id := KeyIdOf(Some(dest));
              store.View() ==
                if id.None? then old(store.View())
                else if !plan.Emit? then StoreAfter(old(store.View()), id.value, tier0)
                else Taught(wire, StoreAfter(old(store.View()), id.value, tier0), store.maxEntries, id.value,
                            Normalize(network(plan.w)).response, seenAt, stamp)
    {
      var plan;
      plan, tier0 := Prepare(dest, d);
      if !plan.Emit? { return NotSent(plan), tier0; }
      sent := Receive(KeyIdOf(Some(dest)).value, d.messageId, plan.sealed, network(plan.w), seenAt, stamp);
    }
  }

  function SelfText(s: Sender): Text { if s.privateKey.Some? then s.privateKey.value.text else [] }

  /** What the caller is told of a send that went out. */
  function Settled(p: Platform, wire: Wire, s: Sender, id: KeyId, messageId: Text, sealed: bool,
                   raw: RouteResult): Sent
  {
    var r := Normalize(raw);
    var (settled, note) := Settle(p, wire, r, sealed, id.text, messageId, s.sealKey);
    Sent(settled, note, JudgeReceipt(wire, r.response, id, SelfText(s), messageId))
  }
}
