/** Gate by gate: why a routed message is refused, what a delivered one says, and what either is answered. */
module MessageLaws {
  import opened JsText
  import opened Wrappers
  import opened Keys
  import opened Json
  import opened RouteManifest
  import opened RoutedMessage
  import opened RoutedMessageProofs
  import opened RouteDelivery
  import KeyStore
  import G = ReplayGuard

  /** The reason given where this condition is the first to fail. */
  function Ask<R>(holds: bool, otherwise: R, next: Option<R>): Option<R> { if holds then next else Some(otherwise) }

  // ------------------------------------------------------------------------- the manifest

  /** The digits of base64url: capitals, small letters, figures, the hyphen and the underscore. */
  predicate DigitOf(c: char, d: nat) {
    || (d < 26 && c as int == 'A' as int + d)
    || (26 <= d < 52 && c as int == 'a' as int + (d - 26))
    || (52 <= d < 62 && c as int == '0' as int + (d - 52))
    || (d == 62 && c == '-')
    || (d == 63 && c == '_')
  }

  lemma DigitsAre(c: char, d: nat)
    requires c as int < 0x1_0000
    ensures Base64Url(c as int) == d <==> DigitOf(c, d)
  {
  }

  /** An object of exactly the signed fields, in any order, each with its value. */
  predicate Spells(v: Value, values: seq<Value>)
    requires |values| == 12
  {
    && v.Obj? && |v.entries| == 12
    && (forall i :: 0 <= i < 12 ==> v.entries[i].0 in FIELDS)
    && forall i :: 0 <= i < 12 ==> Has(v.entries, FIELDS[i]) && Get(v.entries, FIELDS[i]) == values[i]
  }

  predicate AllThere(es: seq<Entry>, names: seq<Text>) { forall i :: 0 <= i < |names| ==> Has(es, names[i]) }

  predicate NothingElse(es: seq<Entry>, names: seq<Text>) { forall i :: 0 <= i < |es| ==> es[i].0 in names }

  lemma {:induction false} HasAllIff(es: seq<Entry>, names: seq<Text>)
    ensures HasAll(es, names) <==> AllThere(es, names)
  {
    if names != [] { HasAllIff(es, names[1..]); }
  }

  lemma {:induction false} HasOnlyIff(es: seq<Entry>, names: seq<Text>)
    ensures HasOnly(es, names) <==> NothingElse(es, names)
  {
    if es != [] { HasOnlyIff(es[1..], names); }
  }

  /** A value passes as this manifest exactly when it spells a well-formed one: nothing missing, nothing besides. */
  lemma PassesIff(v: Value, m: Manifest)
    ensures Check(v) == Ok(m) <==> WellFormed(m) && Spells(v, Items(m))
  {
    if v.Obj? {
      HasAllIff(v.entries, FIELDS);
      HasOnlyIff(v.entries, FIELDS);
      CheckedItems(SignedItems(v.entries), m);
    }
  }

  /** A whole number a double holds exactly. */
  predicate SafeUint(v: Value) { v.Num? && !v.neg && v.mag < 0x20_0000_0000_0000 }

  /** What is wrong with the signed fields, the first of these. */
  function WhyMisfilled(f: seq<Value>): Option<Problem>
    requires |f| == 12
  {
    Ask(f[0] == Str(DOMAIN), WrongDomain,
    Ask(f[1] == Num(false, 1), UnknownVersion,
    Ask(f[2].Str? && IsDigest(f[2].s), BadOrigin,
    Ask(f[3].Str? && IsDigest(f[3].s), BadDestination,
    Ask(f[4].Str? && IsMessageId(f[4].s), BadMessageId,
    Ask(SafeUint(f[5]) && SafeUint(f[6]), BadBlock,
    Ask(f[5].Num? && f[6].Num? && f[5].mag < f[6].mag, BlockOutOfRange,
    Ask(SafeUint(f[7]) && SafeUint(f[8]), BadTimestamps,
    Ask(f[7].Num? && f[8].Num? && f[7].mag < f[8].mag, ExpiresTooSoon,
    Ask(f[9] in [Str(CLEAR), Str(SEALED)], BadMode,
    Ask(f[10] == Str(SHA256), UnknownDigestAlgorithm,
    Ask(f[11].Str? && IsDigest(f[11].s), BadDigest, None))))))))))))
  }

  function WhyInvalid(v: Value): Option<Problem> {
    if !v.Obj? then Some(if v.Arr? then MissingField else Problem.NotAnObject)
    else
      Ask(AllThere(v.entries, FIELDS), MissingField,
      Ask(|v.entries| == |FIELDS| && NothingElse(v.entries, FIELDS), UnexpectedFields,
      WhyMisfilled(SignedItems(v.entries))))
  }

  lemma MisfilledIff(f: seq<Value>)
    requires |f| == 12
    ensures CheckFields(f).Ok? <==> WhyMisfilled(f).None?
    ensures CheckFields(f).Err? ==> WhyMisfilled(f) == Some(CheckFields(f).error)
  {
  }

  lemma ShapeIff(es: seq<Entry>, names: seq<Text>, filled: Option<Problem>)
    ensures Ask(AllThere(es, names), MissingField,
            Ask(|es| == |names| && NothingElse(es, names), UnexpectedFields, filled))
         == if !HasAll(es, names) then Some(MissingField)
            else if |es| != |names| || !HasOnly(es, names) then Some(UnexpectedFields)
            else filled
  {
    HasAllIff(es, names);
    HasOnlyIff(es, names);
  }

  /** A value passes exactly when nothing is wrong with it, and is otherwise refused for the first thing that is. */
  lemma FirstProblemIsGiven(v: Value)
    ensures Check(v).Ok? <==> WhyInvalid(v).None?
    ensures Check(v).Err? ==> WhyInvalid(v) == Some(Check(v).error)
  {
    if v.Obj? {
      ShapeIff(v.entries, FIELDS, WhyMisfilled(SignedItems(v.entries)));
      MisfilledIff(SignedItems(v.entries));
    }
  }

  // -------------------------------------------------------------------- before any origin

  /** Whose key the carried record is about, if it carries one in its one spelling. */
  function RecordId(w: Wrapper): Option<KeyId> {
    if w.Wrapper? && w.record.OriginRecord? && w.record.canonical && w.record.envelope.Envelope?
    then KeyIdOf(w.record.envelope.record.publicKey) else None
  }

  /** What is asked of a wrapper with a valid manifest before it may name an origin, in this order. */
  function WhyNobody(d: Destination, w: Wrapper, m: Manifest): Option<Reason>
    requires w.Wrapper?
  {
    Ask(m.destination == d.self, NotForMe,
    Ask(m.sealed ==> d.sealKey.Some?, UnsupportedMode,
    Ask(m.blockCount == 1, MultiBlock,
    Ask(!w.payload.NotAString?, BadPayload,
    Ask(!w.payload.TooLong?, PayloadTooLarge,
    Ask(w.payload.Base64?, BadPayload,
    Ask(w.signature.canonical, BadManifest,
    Ask(RecordId(w).Some?, BadOriginRecord,
    Ask(RecordId(w) == Some(KeyId(m.origin)), OriginMismatch,
    Ask(w.record.OriginRecord? && KeyStore.Verified(w.record.envelope), BadOriginRecord,
    Ask(w.signature.signature == Signed(KeyId(m.origin), SignedText(m)), BadManifest, None)))))))))))
  }

  function WhyAnonymous(p: Platform, d: Destination, w: Wrapper): Option<Reason> {
    if w.NotAWrapper? then Some(Malformed)
    else if p.wireSize(w) > 950_000 then Some(WrapperTooLarge)
    else match Check(w.manifest) case Err(_) => Some(BadManifest) case Ok(m) => WhyNobody(d, w, m)
  }

  /** A refusal that names no origin has the first of these reasons, and every other outcome has none of them. */
  lemma NobodyIsNamed(p: Platform, d: Destination, o: G.Options, g: G.Guard, checkAt: int, admitAt: int, w: Wrapper)
    ensures var (g', out) := Open(p, d, o, g, checkAt, admitAt, w);
            && (out.Refused? && out.known.None? <==> WhyAnonymous(p, d, w).Some?)
            && (WhyAnonymous(p, d, w).Some? ==> out == Refused(WhyAnonymous(p, d, w).value, None) && g' == g)
  {
    AuthenticIff(p, d, w);
  }

  lemma AuthenticIff(p: Platform, d: Destination, w: Wrapper)
    ensures match WhyAnonymous(p, d, w)
            case Some(r) => Authenticate(p, d, w) == Err(r)
            case None =>
              w.Wrapper? && Check(w.manifest).Ok? && w.payload.Base64?
              && Authenticate(p, d, w) == Ok(Authentic(Check(w.manifest).value, w.payload.bytes, w.payload.canonical))
  {
    if w.Wrapper? && Check(w.manifest).Ok? {
      VerifiesIff(w.manifest, w.signature,
                  if w.record.OriginRecord? && w.record.envelope.Envelope? then
                    w.record.envelope.record.publicKey else None);
    }
  }

  lemma VerifiesIff(v: Value, signature: WireSignature, key: Option<Key>)
    requires Check(v).Ok?
    ensures Verifies(v, signature, key)
       <==> && signature.canonical && KeyIdOf(key) == Some(KeyId(Check(v).value.origin))
            && signature.signature == Signed(KeyId(Check(v).value.origin), SignedText(Check(v).value))
  {
    CheckedIsSigned(v);
  }

  // --------------------------------------------------------------------- a known origin

  /** Local policy: whom to hear, and when clear will not do. */
  function WhyNotWelcome(d: Destination, m: Manifest): Option<Reason> {
    Ask(d.authorized(m.origin), OriginUnauthorized,
    Ask(m.sealed || !d.requireSealed, CleartextRefused,
    Ask(m.sealed || d.requireSealFrom.None? || !d.requireSealFrom.value(m.origin), DowngradeRefused, None)))
  }

  /** What a sealed payload says to the holder of that key, and which identity sealed it. */
  function Unsealed(b: Bytes, mine: Option<Key>): Option<(KeyId, Text)> {
    if b.SealedBytes? && b.block.from.Some? && b.block.signer.Some? && KeyIdOf(b.block.from) == b.block.signer
       && mine.Some? && b.block.recipient.kind == mine.value.kind && b.block.recipient.id == mine.value.id
    then Some((b.block.signer.value, b.block.plaintext)) else None
  }

  /** A body beside a key for the reply, and nothing else. */
  predicate HasHeader(v: Value) { v.Obj? && |v.entries| == 2 && Has(v.entries, HEADER) && Has(v.entries, BODY) }

  predicate GoodHeader(p: Platform, v: Value) {
    HasHeader(v) ==> Get(v.entries, HEADER).Str? && p.x25519(Get(v.entries, HEADER).s).Some?
  }

  function Parsed(p: Platform, t: Option<Text>): Option<Value> { if t.Some? then p.parse(t.value) else None }

  /** What is asked of the committed bytes. */
  function WhyUnreadable(p: Platform, d: Destination, m: Manifest, b: Bytes, canonical: bool): Option<Reason> {
    Ask(p.size(b) <= 700_000, PayloadTooLarge,
    Ask(canonical, BadPayload,
    Ask(p.digest(b) == m.digest, DigestMismatch,
    if !m.sealed then Ask(Parsed(p, TextOf(p, b)).Some?, BadBody, None)
    else
      Ask(Parsed(p, TextOf(p, b)).Some?, NotSealedJson,
      match Unsealed(b, d.sealKey)
      case None => Some(CannotOpen)
      case Some((sealer, text)) =>
        Ask(sealer.text == m.origin, SealOriginMismatch,
        match p.parse(text)
        case None => Some(BadBody)
        case Some(v) => Ask(GoodHeader(p, v), BadResponseKey, None))))))
  }

  /** The body in them, and the key to reply to. */
  predicate Says(p: Platform, d: Destination, m: Manifest, b: Bytes, body: Value, responseKey: Option<Text>) {
    if !m.sealed then responseKey.None? && Parsed(p, TextOf(p, b)) == Some(body)
    else
      && Unsealed(b, d.sealKey).Some?
      && match p.parse(Unsealed(b, d.sealKey).value.1)
         case None => false
         case Some(v) =>
           if HasHeader(v) then
             body == Get(v.entries, BODY) && responseKey.Some? && Get(v.entries, HEADER) == Str(responseKey.value)
           else body == v && responseKey.None?
  }

  lemma RecoverIff(p: Platform, d: Destination, a: Authentic)
    ensures match WhyUnreadable(p, d, a.m, a.bytes, a.canonical)
            case Some(r) => Recover(p, d, a) == Err(r)
            case None => Recover(p, d, a).Ok?
                         && Says(p, d, a.m, a.bytes, Recover(p, d, a).value.0, Recover(p, d, a).value.1)
  {
  }

  /** Past the first gates every refusal names the origin, and has the first of these reasons: policy, the replay guard,
      the bytes, and the guard again. What passes all of them is delivered, for what it says. */
  lemma EveryGateInOrder(p: Platform, d: Destination, o: G.Options, g: G.Guard, checkAt: int, admitAt: int, w: Wrapper)
    requires WhyAnonymous(p, d, w).None?
    ensures w.Wrapper? && Check(w.manifest).Ok? && w.payload.Base64?
    ensures var (m, b) := (Check(w.manifest).value, w.payload.bytes);
            var c := G.Claim(m.origin, m.messageId, m.blockIndex, m.issuedAt, m.expiresAt);
            var (g1, first) := G.Assess(o, g, checkAt, c, false);
            var (g2, second) := G.Assess(o, g1, admitAt, c, true);
            var why := Ask(WhyNotWelcome(d, m).None?, WhyNotWelcome(d, m),
                       Ask(first == G.Admitted, Some(Replay(first)),
                       Ask(WhyUnreadable(p, d, m, b, w.payload.canonical).None?,
                           WhyUnreadable(p, d, m, b, w.payload.canonical),
                       Ask(second == G.Admitted, Some(Replay(second)), None))));
            var (g', out) := Open(p, d, o, g, checkAt, admitAt, w);
            && (why.Some? ==> why.value.Some?
                              && out == Refused(why.value.value,
                                                Some(Authenticated(m.origin, m.messageId, m.blockIndex))))
            && (why.None? ==> && out.Delivered? && out.who == Authenticated(m.origin, m.messageId, m.blockIndex)
                              && out.sealed == m.sealed && Says(p, d, m, b, out.body, out.responseKey))
            && g' == (if WhyNotWelcome(d, m).Some? then g
                      else if first != G.Admitted || WhyUnreadable(p, d, m, b, w.payload.canonical).Some? then
                        g1 else g2)
  {
    AuthenticIff(p, d, w);
    RecoverIff(p, d, Authenticate(p, d, w).value);
  }

  // -------------------------------------------------------------------------- wrapping

  /** Why a body is not wrapped, in this order. */
  function WhyNotWrapped(p: Platform, x: Input): Option<WrapError>
    requires x.privateKey.Some?
  {
    var key := if x.sealTo.Some? then x.sealTo.value.responseKey else None;
    Ask(KeyIdOf(x.self.publicKey).Some?, BadIdentity,
    Ask(KeyIdOf(x.self.publicKey) == x.privateKey, KeysDiffer,
    Ask(key.Some? ==> p.x25519(key.value).Some?, BadResponseSealKey,
    Ask(key.Some? || !x.body.Undefined?, NotSerialisable,
    Ask(p.size(Plain(Stringify(Inner(x)))) <= 700_000, BodyTooLarge,
    Ask(x.sealTo.Some? ==> x.sealTo.value.recipient.kind.X25519?, CannotSeal,
    Ask(p.size(Transported(x)) <= 700_000, TransportedTooLarge,
    Ask(p.wireSize(Assembled(p, x)) <= 950_000, WrappedTooLarge, None))))))))
  }

  /** What the format of a manifest asks of the names, the time and the bytes. */
  predicate Signable(p: Platform, x: Input)
    requires x.privateKey.Some?
  {
    && IsDigest(x.privateKey.value.text) && IsDigest(x.destination) && IsMessageId(x.messageId)
    && 0 < x.validity && x.now + x.validity <= 0x1F_FFFF_FFFF_FFFF && IsDigest(p.digest(Transported(x)))
  }

  /** A message is wrapped exactly when none of these speaks against it and its manifest is well formed, which is asked
      before the size of the whole. Then the wrapper carries the origin's own record and a manifest it signed, for that
      destination, id and time, over what is transported. */
  lemma WrappedIff(p: Platform, x: Input)
    ensures x.privateKey.None? ==>
              Wrap(p, x) == Err(if KeyIdOf(x.self.publicKey).None? then BadIdentity else BadPrivateKey)
    ensures x.privateKey.Some? ==>
              match WhyNotWrapped(p, x)
              case Some(why) =>
                if why != WrappedTooLarge || Signable(p, x) then Wrap(p, x) == Err(why)
                else Wrap(p, x).Err? && Wrap(p, x).error.InvalidManifest?
              case None =>
                if !Signable(p, x) then Wrap(p, x).Err? && Wrap(p, x).error.InvalidManifest?
                else
                  && Wrap(p, x).Ok?
                  && var w := Wrap(p, x).value;
                  && w.Wrapper? && Check(w.manifest).Ok? && w.payload == Base64(Transported(x), true)
                  && w.record
                     == OriginRecord(KeyStore.Envelope(x.self, KeyStore.SignedBy(x.privateKey.value, x.self)), true)
                  && var m := Check(w.manifest).value;
                  && m.origin == x.privateKey.value.text && m.destination == x.destination
                  && m.messageId == x.messageId && m.blockIndex == 0 && m.blockCount == 1
                  && m.issuedAt == x.now && m.expiresAt == x.now + x.validity
                  && m.sealed == x.sealTo.Some? && m.digest == p.digest(Transported(x))
                  && w.signature == WireSignature(true, Signed(x.privateKey.value, SignedText(m)))
  {
    if x.privateKey.Some? {
      BuildThenCheck(ManifestOf(p, x));
      if Signable(p, x) && KeyIdOf(x.self.publicKey) == x.privateKey {
        SignedVerifies(ManifestOf(p, x), x.self.publicKey);
      }
    }
  }

  /** Clear, the bytes are the body's own text. Sealed, they are a block for that recipient alone, with this origin
      bound in, around the body or around it and the key to reply to. */
  lemma TransportedIs(x: Input)
    requires x.privateKey.Some?
    ensures x.sealTo.None? ==> Transported(x) == Plain(Stringify(x.body))
    ensures x.sealTo.Some? ==>
              && Transported(x).SealedBytes?
              && var (b, key) := (Transported(x).block, x.sealTo.value.responseKey);
              && b.recipient == x.sealTo.value.recipient && b.from == x.self.publicKey && b.signer == x.privateKey
              && b.plaintext == Stringify(if key.Some? then Obj([(HEADER, Str(key.value)), (BODY, x.body)]) else x.body)
  {
  }

  // --------------------------------------------------------------------------- replies

  /** Why a sealed reply is not let in, in this order. */
  function WhyReplyRefused(p: Platform, c: Carried, destination: Text, messageId: Text, mine: Option<Key>)
    : Option<ResponseReason>
  {
    var from := match c case Junk(from) => KeyIdOf(from) case Genuine(b) => KeyIdOf(b.from) case _ => None;
    var said := if c.Genuine? then Unsealed(SealedBytes(c.block), mine) else None;
    var v := if said.Some? then p.parse(said.value.1) else None;
    Ask(!c.NotAnObject? && !c.TooBig? && (c.Genuine? ==> p.size(SealedBytes(c.block)) <= 700_000), ResponseMalformed,
    Ask(from == Some(KeyId(destination)), WrongSealer,
    Ask(v.Some?, Unopenable,
    Ask(v.Some? && v.value.Obj? && |v.value.entries| == 2 && Has(v.value.entries, MESSAGE_ID)
        && Has(v.value.entries, BODY),
        ResponseMalformed,
    Ask(v.Some? && v.value.Obj? && Get(v.value.entries, MESSAGE_ID) == Str(messageId), MessageMismatch, None)))))
  }

  lemma ReplyRefusedIff(p: Platform, c: Carried, destination: Text, messageId: Text, mine: Option<Key>)
    ensures match WhyReplyRefused(p, c, destination, messageId, mine)
            case Some(why) => OpenResponse(p, c, destination, messageId, mine) == Err(why)
            case None => OpenResponse(p, c, destination, messageId, mine).Ok?
  {
  }

  // --------------------------------------------------------------------------- answers

  /** Whatever is answered, a receipt names this destination, the origin and the message; a message that names no origin
      gets none, and a clear one only beside an object. This machine's record rides along exactly where a key is to be
      learned: with a refusal for want of sealing, and with every delivery that can carry it. */
  lemma AnswerCarries(p: Platform, self: Key, id: KeyId, out: Outcome, response: Value, nonce: nat)
    ensures var a := AnswerTo(p, self, id, out, response, nonce);
            var who := if out.Delivered? then Some(out.who) else out.known;
            var clear := out.Delivered? && !out.sealed;
            && (out.Refused? ==> a.body == Refusal(out.reason))
            && (clear ==> a.body == ClearBody(response))
            && (out.Delivered? && out.sealed ==> a.body.SealedBody? || a.body.Withheld?)
            && (a.record <==> if out.Refused? then out.reason in {CleartextRefused, DowngradeRefused, CannotOpen}
                              else out.sealed || response.Obj?)
            && (a.receipt.Some? <==> who.Some? && (clear ==> response.Obj?))
            && (a.receipt.Some? ==>
                  var refusal := if out.Refused? then Some(out.reason) else None;
                  a.receipt.value
                  == SignedReceipt(id,
                      Receipt(who.value.origin, id.text, who.value.messageId, who.value.blockIndex, refusal)))
  {
  }

  /** A sealed delivery is answered under seal exactly when it named a key that can be sealed to and the reply fits;
      then the block is this machine's, for that key, around the id and the reply. */
  lemma SealedAnswerIff(p: Platform, self: Key, id: KeyId, out: Outcome, response: Value, nonce: nat)
    requires out.Delivered? && out.sealed
    ensures var a := AnswerTo(p, self, id, out, response, nonce);
            var text := Stringify(Obj([(MESSAGE_ID, Str(out.who.messageId)),
                                       (BODY, if response.Undefined? then Null else response)]));
            var to := if out.responseKey.Some? then p.x25519(out.responseKey.value) else None;
            var block := Block(if to.Some? then to.value else self, Some(self), KeyIdOf(Some(self)), nonce, text);
            if to.Some? && p.size(Plain(text)) <= 700_000 && p.size(SealedBytes(block)) <= 700_000
            then a.body == SealedBody(block) else a.body == Withheld
  {
  }

  /** A receipt verifies exactly when the routing target signed it for this origin's own message. */
  lemma ReceiptVerifiesIff(r: SignedReceipt, destination: KeyId, origin: Text, messageId: Text)
    ensures ReceiptVerifies(r, destination, origin, messageId)
       <==> exists refusal: Option<Reason> ::
              r == SignedReceipt(destination, Receipt(origin, destination.text, messageId, 0, refusal))
  {
    if ReceiptVerifies(r, destination, origin, messageId) {
      assert r == SignedReceipt(destination, Receipt(origin, destination.text, messageId, 0, r.receipt.refusal));
    }
  }
}
