/** Routed messages: an origin wraps a body for one destination, which opens it past every gate or refuses. */
module RoutedMessage {
  import opened JsText
  import opened Wrappers
  import opened Keys
  import opened Json
  import opened RouteManifest
  import KeyStore
  import ReplayGuard
  import RouteReplayGuard

  const MAX_BODY_BYTES: nat := 700_000
  const MAX_WRAPPER_BYTES: nat := 950_000
  const HEADER: Text := Ascii("__routedResponseSealKey")
  const BODY: Text := Ascii("body")
  const MESSAGE_ID: Text := Ascii("messageId")

  // ----------------------------------------------------------------- symbolic crypto

  /** A sealed object: readable by the recipient's key holder alone, its sender bound into it. */
  datatype Block = Block(recipient: Key, from: Option<Key>, signer: Option<KeyId>, nonce: nat, plaintext: Text)

  datatype Bytes = Plain(text: Text) | SealedBytes(block: Block) | Noise(n: nat)

  /** Digests, the platform's JSON reader, key parsing, and sizes on the wire. */
  datatype Platform = Platform(digest: Bytes -> Text, parse: Text -> Option<Value>, blockText: Block -> Text,
                               x25519: Text -> Option<Key>, size: Bytes -> nat, wireSize: Wrapper -> nat)

  /** The platform's reader understands whatever `JSON.stringify` writes. */
  ghost predicate ReadsJson(p: Platform) {
    forall v: Value :: p.parse(Stringify(v)) == Some(Reading(false, v))
  }

  /** `openSigned`: whose block it is and what it says, if it is signed and sealed to this key. */
  function OpenSigned(b: Block, mine: Option<Key>): Option<(Key, Text)> {
    if b.from.Some? && b.signer.Some? && KeyIdOf(b.from) == b.signer
       && mine.Some? && b.recipient.kind == mine.value.kind && b.recipient.id == mine.value.id
    then Some((b.from.value, b.plaintext)) else None
  }

  // ------------------------------------------------------------------------ wrappers

  datatype OriginRecord = OriginRecord(envelope: KeyStore.Envelope, canonical: bool) | NoRecord

  datatype Payload = NotAString | TooLong | NotBase64 | Base64(bytes: Bytes, canonical: bool)

  datatype Wrapper =
    | Wrapper(manifest: Value, signature: WireSignature, record: OriginRecord, payload: Payload)
    | NotAWrapper

  datatype Reason = Malformed | WrapperTooLarge | BadManifest | NotForMe | UnsupportedMode | MultiBlock | BadPayload
    | PayloadTooLarge | BadOriginRecord | OriginMismatch | OriginUnauthorized | CleartextRefused | DowngradeRefused
    | Replay(verdict: ReplayGuard.Verdict) | DigestMismatch | NotSealedJson | CannotOpen | SealOriginMismatch | BadBody
    | BadResponseKey

  datatype Authenticated = Authenticated(origin: Text, messageId: Text, blockIndex: nat)

  datatype Outcome =
    | Delivered(body: Value, who: Authenticated, sealed: bool, responseKey: Option<Text>)
    | Refused(reason: Reason, known: Option<Authenticated>)

  /** This machine: its key id, its sealing key, and its local policy. */
  datatype Destination = Destination(self: Text, sealKey: Option<Key>, authorized: Text -> bool, requireSealed: bool,
                                     requireSealFrom: Option<Text -> bool>)

  // ------------------------------------------------------------------------- opening

  /** A verified manifest and the payload that came with it. */
  datatype Authentic = Authentic(m: Manifest, bytes: Bytes, canonical: bool)

  /** Gate 1: everything that can be refused before any cryptography, given what `manifestProblem` found. */
  function Shape(d: Destination, w: Wrapper, wireSize: nat, checked: Result<Manifest, Problem>): Option<Reason> {
    if w.NotAWrapper? then Some(Malformed)
    else if wireSize > MAX_WRAPPER_BYTES then Some(WrapperTooLarge)
    else if checked.Err? then Some(BadManifest)
    else
      var m := checked.value;
      if m.destination != d.self then Some(NotForMe)
      else if m.sealed && d.sealKey.None? then Some(UnsupportedMode)
      else if m.blockCount != 1 then Some(MultiBlock)
      else if w.payload.NotAString? then Some(BadPayload)
      else if w.payload.TooLong? then Some(PayloadTooLarge)
      else if w.payload.NotBase64? then Some(BadPayload)
      else if !w.signature.canonical then Some(BadManifest)
      else if w.record.NoRecord? || !w.record.canonical || w.record.envelope.Unusable? then Some(BadOriginRecord)
      else None
  }

  /** Gates 2 to 4: whose record it is, and that this key signed this manifest. */
  function Identify(origin: Text, envelope: KeyStore.Envelope, verified: bool): Option<Reason>
    requires envelope.Envelope?
  {
    var key := envelope.record.publicKey;
    if KeyIdOf(key).None? then Some(BadOriginRecord)
    else if KeyIdOf(key).value.text != origin then Some(OriginMismatch)
    else if !KeyStore.Verified(envelope) then Some(BadOriginRecord)
    else if !verified then Some(BadManifest)
    else None
  }

  /** Nothing before a verified manifest names an origin. */
  function Authenticate(p: Platform, d: Destination, w: Wrapper): Result<Authentic, Reason> {
    if w.NotAWrapper? then Err(Malformed)
    else
      var checked := Check(w.manifest);
      var shape := Shape(d, w, p.wireSize(w), checked);
      if shape.Some? then Err(shape.value)
      else
        var verified := Verifies(w.manifest, w.signature, w.record.envelope.record.publicKey);
        var identity := Identify(checked.value.origin, w.record.envelope, verified);
        if identity.Some? then Err(identity.value)
        else Ok(Authentic(checked.value, w.payload.bytes, w.payload.canonical))
  }

  /** Gate 5 and the two confidentiality floors. */
  function Policy(d: Destination, m: Manifest): Option<Reason> {
    if !d.authorized(m.origin) then Some(OriginUnauthorized)
    else if !m.sealed && d.requireSealed then Some(CleartextRefused)
    else if !m.sealed && d.requireSealFrom.Some? && d.requireSealFrom.value(m.origin) then Some(DowngradeRefused)
    else None
  }

  /** The response header, in its exact two-key shape. */
  predicate Headed(v: Value) { v.Obj? && |v.entries| == 2 && Has(v.entries, HEADER) && Has(v.entries, BODY) }

  /** What a parsed sealed plaintext carries. */
  function Unframe(p: Platform, v: Value): Result<(Value, Option<Text>), Reason> {
    if !Headed(v) then Ok((v, None))
    else
      var k := Get(v.entries, HEADER);
      if k.Str? && p.x25519(k.s).Some? then Ok((Get(v.entries, BODY), Some(k.s))) else Err(BadResponseKey)
  }

  function TextOf(p: Platform, b: Bytes): Option<Text> {
    match b
    case Plain(t) => Some(t)
    case SealedBytes(block) => Some(p.blockText(block))
    case Noise(_) => None
  }

  function ParseBytes(p: Platform, b: Bytes): Option<Value> {
    if TextOf(p, b).Some? then p.parse(TextOf(p, b).value) else None
  }

  /** Gate 7: the committed bytes, and the body in them. */
  function Recover(p: Platform, d: Destination, a: Authentic): Result<(Value, Option<Text>), Reason> {
    var (m, b) := (a.m, a.bytes);
    if p.size(b) > MAX_BODY_BYTES then Err(PayloadTooLarge)
    else if !a.canonical then Err(BadPayload)
    else if p.digest(b) != m.digest then Err(DigestMismatch)
    else if !m.sealed then
      var v := ParseBytes(p, b);
      if v.None? then Err(BadBody) else Ok((v.value, None))
    else if ParseBytes(p, b).None? then Err(NotSealedJson)
    else if !b.SealedBytes? then Err(CannotOpen)
    else
      var got := OpenSigned(b.block, d.sealKey);
      if got.None? || KeyIdOf(Some(got.value.0)).None? then Err(CannotOpen)
      else if KeyIdOf(Some(got.value.0)).value.text != m.origin then Err(SealOriginMismatch)
      else
        var v := p.parse(got.value.1);
        if v.None? then Err(BadBody) else Unframe(p, v.value)
  }

  function ClaimOf(m: Manifest): ReplayGuard.Claim {
    ReplayGuard.Claim(m.origin, m.messageId, m.blockIndex, m.issuedAt, m.expiresAt)
  }

  function Who(m: Manifest): Authenticated { Authenticated(m.origin, m.messageId, m.blockIndex) }

  type Step = (ReplayGuard.Guard, Outcome)

  /** Gates 6 to 8, the reservation last. */
  function Decide(p: Platform, d: Destination, o: ReplayGuard.Options, g: ReplayGuard.Guard, checkAt: int, admitAt: int,
                  a: Authentic): Step
  {
    var m := a.m;
    var (g1, first) := ReplayGuard.Assess(o, g, checkAt, ClaimOf(m), false);
    if first != ReplayGuard.Admitted then (g1, Refused(Replay(first), Some(Who(m))))
    else
      var r := Recover(p, d, a);
      if r.Err? then (g1, Refused(r.error, Some(Who(m))))
      else
        var (g2, second) := ReplayGuard.Assess(o, g1, admitAt, ClaimOf(m), true);
        if second != ReplayGuard.Admitted then (g2, Refused(Replay(second), Some(Who(m))))
        else (g2, Delivered(r.value.0, Who(m), m.sealed, r.value.1))
  }

  /** `openRoutedMessage`, as what becomes of the guard and what the caller is told. */
  function Open(p: Platform, d: Destination, o: ReplayGuard.Options, g: ReplayGuard.Guard, checkAt: int, admitAt: int,
                w: Wrapper): Step
  {
    var a := Authenticate(p, d, w);
    if a.Err? then (g, Refused(a.error, None))
    else if Policy(d, a.value.m).Some? then (g, Refused(Policy(d, a.value.m).value, Some(Who(a.value.m))))
    else Decide(p, d, o, g, checkAt, admitAt, a.value)
  }

  /** The gate sequence over the live guard. */
  method OpenRoutedMessage(p: Platform, d: Destination, guard: RouteReplayGuard.RouteReplayGuard, checkAt: int,
                           admitAt: int, w: Wrapper)
    returns (out: Outcome)
    requires guard.Valid()
    modifies guard
    ensures guard.Valid()
    ensures (guard.View(), out) == Open(p, d, guard.options, old(guard.View()), checkAt, admitAt, w)
  {
    var a := Authenticate(p, d, w);
    if a.Err? { return Refused(a.error, None); }
    var m := a.value.m;
    var policy := Policy(d, m);
    if policy.Some? { return Refused(policy.value, Some(Who(m))); }
    var checked := guard.Check(checkAt, ClaimOf(m));
    if checked != ReplayGuard.Admitted { return Refused(Replay(checked), Some(Who(m))); }
    var r := Recover(p, d, a.value);
    if r.Err? { return Refused(r.error, Some(Who(m))); }
    var admitted := guard.Admit(admitAt, ClaimOf(m));
    if admitted != ReplayGuard.Admitted { return Refused(Replay(admitted), Some(Who(m))); }
    out := Delivered(r.value.0, Who(m), m.sealed, r.value.1);
  }

  // ------------------------------------------------------------------------ wrapping

  datatype SealTo = SealTo(recipient: Key, responseKey: Option<Text>)

  datatype Input = Input(self: KeyStore.SelfRecord, privateKey: Option<KeyId>, destination: Text, body: Value,
                         messageId: Text, now: nat, validity: int, sealTo: Option<SealTo>, nonce: nat)

  datatype WrapError = BadIdentity | BadPrivateKey | KeysDiffer | BadResponseSealKey | NotSerialisable | BodyTooLarge
    | CannotSeal | TransportedTooLarge | InvalidManifest(problem: Problem) | WrappedTooLarge

  /** The plaintext: the body, framed with the response key when there is one. */
  function Inner(x: Input): Value {
    if x.sealTo.Some? && x.sealTo.value.responseKey.Some? then
      Obj([(HEADER, Str(x.sealTo.value.responseKey.value)), (BODY, x.body)])
    else x.body
  }

  function Transported(x: Input): Bytes
    requires x.privateKey.Some?
  {
    if x.sealTo.Some? then
      SealedBytes(Block(x.sealTo.value.recipient, x.self.publicKey, x.privateKey, x.nonce, Stringify(Inner(x))))
    else Plain(Stringify(Inner(x)))
  }

  function ManifestOf(p: Platform, x: Input): Manifest
    requires x.privateKey.Some?
  {
    Manifest(x.privateKey.value.text, x.destination, x.messageId, 0, 1, x.now,
             if x.now + x.validity < 0 then 0 else x.now + x.validity, x.sealTo.Some?, p.digest(Transported(x)))
  }

  function Assembled(p: Platform, x: Input): Wrapper
    requires x.privateKey.Some?
  {
    var m := ManifestOf(p, x);
    var id := x.privateKey.value;
    Wrapper(ToValue(m), WireSignature(true, Signed(id, SignedText(m))),
            OriginRecord(KeyStore.Envelope(x.self, KeyStore.SignedBy(id, x.self)), true), Base64(Transported(x), true))
  }

  /** `wrapRoutedMessage`. */
  function Wrap(p: Platform, x: Input): Result<Wrapper, WrapError> {
    if KeyIdOf(x.self.publicKey).None? then Err(BadIdentity)
    else if x.privateKey.None? then Err(BadPrivateKey)
    else if KeyIdOf(x.self.publicKey) != x.privateKey then Err(KeysDiffer)
    else if x.sealTo.Some? && x.sealTo.value.responseKey.Some? && p.x25519(x.sealTo.value.responseKey.value).None? then
      Err(BadResponseSealKey)
    else if Inner(x).Undefined? then Err(NotSerialisable)
    else if p.size(Plain(Stringify(Inner(x)))) > MAX_BODY_BYTES then Err(BodyTooLarge)
    else if x.sealTo.Some? && !x.sealTo.value.recipient.kind.X25519? then Err(CannotSeal)
    else if p.size(Transported(x)) > MAX_BODY_BYTES then Err(TransportedTooLarge)
    else
      match Build(ManifestOf(p, x))
      case Err(e) => Err(InvalidManifest(e))
      case Ok(_) =>
        if p.wireSize(Assembled(p, x)) > MAX_WRAPPER_BYTES then Err(WrappedTooLarge) else Ok(Assembled(p, x))
  }

  // ----------------------------------------------------------------- sealed responses

  /** `sealRoutedResponse`: the reply, framed with the id of the request it answers. */
  function SealResponse(p: Platform, self: Key, responseKey: Text, messageId: Text, body: Value,
                        nonce: nat): Option<Block>
  {
    var text := Stringify(ReplyEnvelope(messageId, body));
    var to := p.x25519(responseKey);
    if p.size(Plain(text)) > MAX_BODY_BYTES || to.None? then None
    else
      var b := Block(to.value, Some(self), KeyIdOf(Some(self)), nonce, text);
      if p.size(SealedBytes(b)) > MAX_BODY_BYTES then None else Some(b)
  }

  function ReplyEnvelope(messageId: Text, body: Value): Value {
    Obj([(MESSAGE_ID, Str(messageId)), (BODY, if body.Undefined? then Null else body)])
  }

  datatype ResponseReason = ResponseMalformed | WrongSealer | Unopenable | MessageMismatch

  predicate Enveloped(v: Value) { v.Obj? && |v.entries| == 2 && Has(v.entries, MESSAGE_ID) && Has(v.entries, BODY) }

  /** What came back under the sealed-response field: no object, one too large, one that is no sealed block, or a
      block. */
  datatype Carried = NotAnObject | TooBig | Junk(from: Option<Key>) | Genuine(block: Block)

  function SealerOf(c: Carried): Option<KeyId> {
    match c
    case Junk(from) => KeyIdOf(from)
    case Genuine(b) => KeyIdOf(b.from)
    case _ => None
  }

  /** `openRoutedResponse`: sealer, signature, seal, shape and id, in that order. */
  function OpenResponse(p: Platform, c: Carried, destination: Text, messageId: Text, mine: Option<Key>)
    : Result<Value, ResponseReason>
  {
    if c.NotAnObject? || c.TooBig? || (c.Genuine? && p.size(SealedBytes(c.block)) > MAX_BODY_BYTES) then
      Err(ResponseMalformed)
    else if SealerOf(c) != Some(KeyId(destination)) then Err(WrongSealer)
    else if c.Junk? then Err(Unopenable)
    else
      var got := OpenSigned(c.block, mine);
      if got.None? || p.parse(got.value.1).None? then Err(Unopenable)
      else
        var v := p.parse(got.value.1).value;
        if !Enveloped(v) then Err(ResponseMalformed)
        else if Get(v.entries, MESSAGE_ID) != Str(messageId) then Err(MessageMismatch)
        else Ok(Get(v.entries, BODY))
  }
}
