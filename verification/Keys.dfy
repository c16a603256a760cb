/** Public keys under ideal digests: two keys have one key id exactly when they are one key. */
module Keys {
  import opened JsText
  import opened Wrappers

  /** The SHA-256 of a key's SPKI DER, as unpadded base64url. */
  datatype KeyId = KeyId(text: Text)

  datatype Kind = Ed25519 | X25519 | Unparseable

  /** A normalised PEM text. `id` stands for the DER it decodes to, `spelling` for how it is wrapped. */
  datatype Key = Key(kind: Kind, id: KeyId, spelling: nat)

  /** `sameKey`: one normalised text. */
  predicate SameKey(a: Option<Key>, b: Option<Key>) { a.Some? && a == b }

  /** `sameCanonicalKey`: one DER; a key that does not parse equals nothing, itself included. */
  predicate SameCanonicalKey(a: Option<Key>, b: Option<Key>) {
    && a.Some? && b.Some?
    && !a.value.kind.Unparseable?
    && a.value.kind == b.value.kind
    && a.value.id == b.value.id
  }

  /** `keyId`: only an Ed25519 key has one; anything else throws. */
  function KeyIdOf(k: Option<Key>): Option<KeyId> {
    if k.Some? && k.value.kind.Ed25519? then Some(k.value.id) else None
  }
}
