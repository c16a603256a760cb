/** The destination's end: what a delivered or refused message is answered with, and what it teaches. */
module RouteDelivery {
  import opened JsText
  import opened Wrappers
  import opened Keys
  import opened Json
  import opened RouteManifest
  import opened RoutedMessage
  import G = ReplayGuard
  import RouteReplayGuard
  import Obs = RoutedObservation

  // -------------------------------------------------------------------------- answers

  datatype Receipt = Receipt(origin: Text, destination: Text, messageId: Text, blockIndex: nat, refusal: Option<Reason>)

  /** An ideal signature over a receipt names its signer. */
  datatype SignedReceipt = SignedReceipt(signer: KeyId, receipt: Receipt) | Unsigned

  datatype Body = Refusal(reason: Reason) | ClearBody(response: Value) | SealedBody(block: Block) | Withheld

  /** `record`: this machine's signed key record rides along. */
  datatype Answer = Answer(body: Body, record: bool, receipt: Option<SignedReceipt>)

  /** The refusals that teach the origin the key to seal to next time. */
  predicate Teaches(r: Reason) { r.CleartextRefused? || r.DowngradeRefused? || r.CannotOpen? }

  function ReceiptFor(self: KeyId, who: Authenticated, refusal: Option<Reason>): SignedReceipt {
    SignedReceipt(self, Receipt(who.origin, self.text, who.messageId, who.blockIndex, refusal))
  }

  /** `verifyRoutedReceipt`: signed by the routing target, for this origin, this id, block 0. */
  predicate ReceiptVerifies(r: SignedReceipt, destination: KeyId, origin: Text, messageId: Text) {
    && r.SignedReceipt? && r.signer == destination
    && r.receipt.destination == destination.text && r.receipt.origin == origin
    && r.receipt.messageId == messageId && r.receipt.blockIndex == 0
  }

  /** What the plugin answers, given what opening said and what the consumer replied. */
  function AnswerTo(p: Platform, self: Key, id: KeyId, out: Outcome, response: Value, nonce: nat): Answer {
    match out
    case Refused(reason, known) =>
      var receipt := if known.Some? then Some(ReceiptFor(id, known.value, Some(reason))) else None;
      Answer(Refusal(reason), Teaches(reason), receipt)
    case Delivered(_, who, sealed, responseKey) =>
      var receipt := Some(ReceiptFor(id, who, None));
      if !sealed then Answer(ClearBody(response), response.Obj?, if response.Obj? then receipt else None)
      else if responseKey.None? then Answer(Withheld, true, receipt)
      else
        var block := SealResponse(p, self, responseKey.value, who.messageId, response, nonce);
        Answer(if block.Some? then SealedBody(block.value) else Withheld, true, receipt)
  }

  /** The per-origin floor as the daemon arms it: refuse a clear message from any marked origin. */
  function Armed(d: Destination, m: Obs.Markers): Destination {
    d.(requireSealFrom := Some(id => Obs.Has(m, id, Obs.REQUIRE_SEAL_FROM)))
  }

  /** What a message does to the markers. */
  function Learned(m: Obs.Markers, max: nat, out: Outcome): Obs.Markers {
    if out.Delivered? && out.sealed then Obs.Observing(m, max, out.who.origin, Obs.REQUIRE_SEAL_FROM).0 else m
  }

  class Delivery {
    const platform: Platform
    const destination: Destination
    const self: Key
    const guard: RouteReplayGuard.RouteReplayGuard
    const issuer: Obs.Issuer
    const observations: Obs.RoutedObservationStore

    ghost predicate Valid()
      reads guard, observations
    {
      guard.Valid() && observations.Valid() && KeyIdOf(Some(self)).Some?
    }

    constructor (platform: Platform, destination: Destination, self: Key, guard: RouteReplayGuard.RouteReplayGuard,
                 issuer: Obs.Issuer, observations: Obs.RoutedObservationStore)
      requires guard.Valid() && observations.Valid() && KeyIdOf(Some(self)).Some?
      ensures Valid() && this.platform == platform && this.destination == destination && this.self == self
      ensures this.guard == guard && this.issuer == issuer && this.observations == observations
    {
      this.platform, this.destination, this.self := platform, destination, self;
      this.guard, this.issuer, this.observations := guard, issuer, observations;
    }

    /** Open; on a sealed delivery record the marker before the consumer runs; answer in the mode of the request. */
    method Deliver(w: Wrapper, checkAt: int, admitAt: int, consumer: Value -> Value, nonce: nat)
      returns (answer: Answer, ghost out: Outcome)
      requires Valid()
      modifies guard, observations, issuer
      ensures Valid()
      ensures var d := Armed(destination, old(observations.View()));
              (guard.View(), out) == Open(platform, d, guard.options, old(guard.View()), checkAt, admitAt, w)
      ensures observations.View() == Learned(old(observations.View()), observations.maxEntries, out)
      ensures answer == AnswerTo(platform, self, KeyIdOf(Some(self)).value, out,
                                 if out.Delivered? then consumer(out.body) else Undefined, nonce)
    {
      var d := Armed(destination, observations.View());
      var result := OpenRoutedMessage(platform, d, guard, checkAt, admitAt, w);
      out := result;
      var id := KeyIdOf(Some(self)).value;
      if result.Refused? {
        var receipt :=
          if result.known.Some? then Some(ReceiptFor(id, result.known.value, Some(result.reason))) else None;
        return Answer(Refusal(result.reason), Teaches(result.reason), receipt), out;
      }
      OriginIsDigest(platform, d, guard.options, old(guard.View()), checkAt, admitAt, w);
      if result.sealed {
        var proof := issuer.Issue(result.who.origin);
        if proof.Ok? { var _ := observations.Observe(issuer, proof.value, Obs.REQUIRE_SEAL_FROM); }
      }
      var response := consumer(result.body);
      answer := AnswerTo(platform, self, id, result, response, nonce);
    }
  }

  /** A delivered message's origin is a key id. */
  lemma OriginIsDigest(p: Platform, d: Destination, o: G.Options, g: G.Guard, checkAt: int, admitAt: int, w: Wrapper)
    requires Open(p, d, o, g, checkAt, admitAt, w).1.Delivered?
    ensures IsDigest(Open(p, d, o, g, checkAt, admitAt, w).1.who.origin)
  {
    CheckedIsSigned(w.manifest);
  }
}
