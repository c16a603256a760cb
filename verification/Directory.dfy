/** The peer directory: what each of its mutations does to the admitted peers and the retirements. */
module Directory {
  import opened Wrappers
  import opened Keys
  import opened Tombstones
  import opened Generations
  import opened Peers

  /** A peer as described by itself or by another: what `makePeerRecord` keeps. */
  datatype Offer = Offer(publicKey: Option<Key>, sealPublicKey: Option<Key>, fields: Fields, broughtAddress: bool)

  /** Where a peer lands when nobody said otherwise. */
  datatype Trust = Trust(admitProfile: Value, candidateProfile: Value)

  /** Address ranking, and the clock. */
  datatype Host = Host(fold: (Fields, Fields) -> Fields, rebuild: Fields -> Fields, stamp: Fields -> Fields,
                       listed: (Option<Value>, Key) -> Value, trust: Trust, now: int)

  /** `notified`: the identities the seal-posture listener has been told about. */
  datatype Dir = Dir(admitted: Admitted, candidates: map<string, Offer>, gens: GenFile, notified: set<Key>)

  // ------------------------------------------------------------------------ records

  const OURS: set<string> := {"profile", "conflicts", "profileUntil", "profileAfter"}

  function Only(fields: Fields, names: set<string>): Fields { map f | f in fields && f in names :: fields[f] }

  /** `keepOurs`: what is ours rather than the peer's comes back onto a rebuilt record. */
  function KeepOurs(publicKey: Option<Key>, sealPublicKey: Option<Key>, fields: Fields, previous: Peer): Peer {
    previous.(publicKey := publicKey, sealPublicKey := sealPublicKey,
              fields := (fields - OURS) + Only(previous.fields, OURS))
  }

  /** `??`. */
  function OrElse<T>(a: Option<T>, b: Option<T>): Option<T> { if a.Some? then a else b }

  /** `commit`. */
  function Commit(d: Dir, n: string, p: Peer): Dir {
    var base := MaxNat(if n in d.admitted then d.admitted[n].rev else 0, p.rev);
    d.(admitted := d.admitted[n := p.(rev := base + 1)])
  }

  function Notify(d: Dir, k: Option<Key>): Dir { if k.Some? then d.(notified := d.notified + {k.value}) else d }

  /** `tombstone`: only an Ed25519 identity can hold a Tier-1 entry. */
  function Bury(d: Dir, k: Option<Key>, at: int, reason: Reason): Dir {
    if KeyIdOf(k).None? then d
    else d.(gens := d.gens.(tombstones := Mint(d.gens.tombstones, KeyIdOf(k).value, at, reason)))
  }

  // ----------------------------------------------------------------------- elevation

  function UntilOf(fields: Fields): int {
    if "profileUntil" in fields then NumberIn(Some(fields["profileUntil"])) else 0
  }

  function FieldOf(fields: Fields, f: string): Option<Value> { if f in fields then Some(fields[f]) else None }

  /** `asOfNow`: a lapsed raise has fallen back to what it was raised from. */
  function EffectiveProfile(fields: Fields, trust: Trust, now: int): Option<Value> {
    if UntilOf(fields) == 0 || UntilOf(fields) > now then FieldOf(fields, "profile")
    else OrElse(FieldOf(fields, "profileAfter"), Some(trust.candidateProfile))
  }

  function RevertBase(existing: Option<Peer>, trust: Trust, now: int): Option<Value> {
    if existing.None? then None
    else if UntilOf(existing.value.fields) != 0 && UntilOf(existing.value.fields) > now then
      FieldOf(existing.value.fields, "profileAfter")
    else EffectiveProfile(existing.value.fields, trust, now)
  }

  /** The profile and the raise an admission leaves. */
  function Elevation(existing: Option<Peer>, requested: Option<Value>, until: int, fallback: Value, trust: Trust,
                     now: int)
    : Fields
  {
    var held := if existing.Some? then FieldOf(existing.value.fields, "profile") else None;
    var profile := map["profile" := OrElse(OrElse(requested, held), Some(fallback)).value];
    if until != 0 && requested.Some? then
      var after := OrElse(RevertBase(existing, trust, now), Some(fallback)).value;
      profile["profileUntil" := Number(until)]["profileAfter" := after]
    else if requested.Some? then profile
    else if existing.Some? && UntilOf(existing.value.fields) != 0 then
      profile + Only(existing.value.fields, {"profileUntil", "profileAfter"})
    else profile
  }

  // ----------------------------------------------------------------------- mutations

  datatype Op =
    | Admit(name: string, offer: Offer, requested: Option<Value>, until: int)
    | ForgetPeer(name: string)
    | LearnOf(name: string, offer: Offer)
    | MarkReachable(name: string)
    | BindKey(name: string, key: Option<Key>)
    | RotateKey(name: string, key: Option<Key>)
    | BindSealKey(name: string, key: Option<Key>, expected: Option<Option<Key>>)
    | AcceptSealKey(name: string, key: Option<Key>)
    | NoteBinding(name: string, version: nat)
    | NoteKeyConflict(name: string, key: Option<Key>)

  function Admitting(h: Host, d: Dir, n: string, offer: Offer, requested: Option<Value>, until: int): Peer {
    var existing := Lookup(d.admitted, n);
    var fallback :=
      if n in d.candidates && !offer.broughtAddress then h.trust.candidateProfile else h.trust.admitProfile;
    var raise := Elevation(existing, requested, until, fallback, h.trust, h.now);
    match existing
    case None =>
      Peer(offer.publicKey, offer.sealPublicKey, false, None, false, 0, 0, (offer.fields - OURS) + raise)
    case Some(p) =>
      p.(publicKey := OrElse(p.publicKey, offer.publicKey),
         fields := (h.fold(p.fields, offer.fields) - OURS) + Only(p.fields, {"conflicts"}) + raise)
  }

  /** `admit`; a raise with nothing to raise to throws. */
  function AdmitPeer(h: Host, d: Dir, n: string, offer: Offer, requested: Option<Value>, until: int): Result<Dir, ()> {
    if until != 0 && requested.None? then Err(())
    else
      var d' := Commit(d, n, Admitting(h, d, n, offer, requested, until));
      Ok(d'.(candidates := d'.candidates - {n}))
  }

  function Forgetting(h: Host, d: Dir, n: string): Dir {
    if n in d.admitted then
      var k := d.admitted[n].publicKey;
      Bury(Notify(d.(admitted := d.admitted - {n}), k), k, h.now, OnForget)
    else d.(candidates := d.candidates - {n})
  }

  /** One peer of `learnFrom`. */
  function Learn(h: Host, d: Dir, n: string, offer: Offer): Dir {
    if n in d.admitted then
      var p := d.admitted[n];
      Commit(d, n, KeepOurs(OrElse(p.publicKey, offer.publicKey), p.sealPublicKey, h.fold(p.fields, offer.fields), p))
    else if n in d.candidates then
      var c := d.candidates[n];
      var merged := Offer(OrElse(c.publicKey, offer.publicKey), c.sealPublicKey, h.fold(c.fields, offer.fields),
                          c.broughtAddress);
      d.(candidates := d.candidates[n := merged])
    else d.(candidates := d.candidates[n := offer])
  }

  /** A replacement identity: the sealing binding was made to the old one, the sealing floor stays. */
  function Rekeyed(p: Peer, key: Key): Peer {
    p.(publicKey := Some(key), sealPublicKey := None, sealSeen := false, sealConflict := None,
       fields := p.fields - {"conflicts"})
  }

  function Rotating(h: Host, d: Dir, n: string, key: Option<Key>): Dir {
    if n !in d.admitted || key.None? then d
    else
      var retired := d.admitted[n].publicKey;
      Commit(Bury(Notify(d, retired), retired, h.now, OnRotate), n, Rekeyed(d.admitted[n], key.value))
  }

  /** Whether the key a sealing key was verified against is the one this record holds. */
  predicate ProvenFor(p: Peer, expected: Option<Option<Key>>) {
    expected.Some? ==> p.publicKey.Some? && SameKey(p.publicKey, expected.value)
  }

  predicate Bound(p: Peer) { p.sealSeen && p.sealPublicKey.Some? }

  function BindingSeal(d: Dir, n: string, key: Option<Key>, expected: Option<Option<Key>>): Dir {
    if n !in d.admitted || key.None? || !ProvenFor(d.admitted[n], expected) then d
    else
      var p := d.admitted[n];
      if Bound(p) && !SameKey(p.sealPublicKey, key) then
        if p.sealConflict.Some? then d
        else Commit(Notify(d, p.publicKey), n, p.(sealConflict := key))
      else if p.sealSeen && SameKey(p.sealPublicKey, key) then d
      else Commit(Notify(d, p.publicKey), n, p.(sealPublicKey := key, sealSeen := true, sealRequired := true))
  }

  function Accepting(d: Dir, n: string, key: Option<Key>): Dir {
    if n !in d.admitted then d
    else
      var p := d.admitted[n];
      var chosen := OrElse(OrElse(key, p.sealConflict), p.sealPublicKey);
      if chosen.None? then d
      else
        Commit(Notify(d, p.publicKey), n,
               p.(sealPublicKey := chosen, sealSeen := true, sealConflict := None, sealRequired := true))
  }

  function Apply(h: Host, d: Dir, op: Op): Dir {
    match op
    case Admit(n, offer, requested, until) =>
      var r := AdmitPeer(h, d, n, offer, requested, until);
      if r.Ok? then r.value else d
    case ForgetPeer(n) => Forgetting(h, d, n)
    case LearnOf(n, offer) => Learn(h, d, n, offer)
    case MarkReachable(n) =>
      if n !in d.admitted then d
      else var p := d.admitted[n]; Commit(d, n, KeepOurs(p.publicKey, p.sealPublicKey, h.stamp(p.fields), p))
    case BindKey(n, key) =>
      if n !in d.admitted || d.admitted[n].publicKey.Some? || key.None? then d
      else var p := d.admitted[n]; Commit(d, n, KeepOurs(key, p.sealPublicKey, h.rebuild(p.fields), p))
    case RotateKey(n, key) => Rotating(h, d, n, key)
    case BindSealKey(n, key, expected) => BindingSeal(d, n, key, expected)
    case AcceptSealKey(n, key) => Accepting(d, n, key)
    case NoteBinding(n, version) =>
      if n !in d.admitted || version == 0 || version <= d.admitted[n].bindingSeen then d
      else Commit(d, n, d.admitted[n].(bindingSeen := version))
    case NoteKeyConflict(n, key) =>
      if n !in d.admitted || key.None? || SameKey(key, d.admitted[n].publicKey) then d
      else
        var p := d.admitted[n];
        Commit(d, n, p.(fields := p.fields["conflicts" := h.listed(FieldOf(p.fields, "conflicts"), key.value)]))
  }

  /** The identities a swap of the whole admitted set must report: gone, or now carrying a sealing posture. */
  function Superseded(before: Admitted, after: Admitted): set<Key> {
    Identities(before) - Identities(after) + Postured(after)
  }

  function Identities(ps: Admitted): set<Key> {
    set n | n in ps && ps[n].publicKey.Some? :: ps[n].publicKey.value
  }

  predicate HasPosture(p: Peer) { p.sealSeen || p.sealConflict.Some? || p.sealRequired }

  function Postured(ps: Admitted): set<Key> {
    set n | n in ps && ps[n].publicKey.Some? && HasPosture(ps[n]) :: ps[n].publicKey.value
  }

  /** `adopt`. */
  function Adopting(d: Dir, admitted: Admitted, candidates: map<string, Offer>, gens: GenFile): Dir {
    Dir(admitted, candidates, Adopt(d.gens, gens), d.notified + Superseded(d.admitted, admitted))
  }

  // --------------------------------------------------- the posture of an identity

  datatype Posture = Posture(state: SealState, key: Option<Key>)

  /** `sealKeyFor`. */
  function SealKey(p: Peer): Option<Key> { if StateOf(p).Verified? then p.sealPublicKey else None }

  /** The names that prove one identity: one DER, however the key is wrapped. */
  function Aliases(ps: Admitted, k: Option<Key>): set<string> {
    set n | n in ps && SameCanonicalKey(ps[n].publicKey, k)
  }

  predicate SomeIn(ps: Admitted, names: set<string>, s: SealState) {
    exists n :: n in names && n in ps && StateOf(ps[n]) == s
  }

  /** Every verified alias holds this sealing key, and at least one does. */
  ghost predicate AgreedKey(ps: Admitted, names: set<string>, key: Option<Key>) {
    && key.Some?
    && (exists n :: n in names && n in ps && StateOf(ps[n]).Verified?)
    && forall n :: n in names && n in ps && StateOf(ps[n]).Verified? ==> ps[n].sealPublicKey == key
  }

  /** What `sealForIdentity` may answer: the worst alias decides, and a key only when all agree. */
  ghost predicate IsPosture(ps: Admitted, names: set<string>, r: Posture) {
    if SomeIn(ps, names, Conflict) then r == Posture(Conflict, None)
    else if SomeIn(ps, names, Reverify) then r == Posture(Reverify, None)
    else if !SomeIn(ps, names, Verified) then r == Posture(Unverified, None)
    else if r.key.Some? then r.state.Verified? && AgreedKey(ps, names, r.key)
    else r.state.Conflict? && forall key :: !AgreedKey(ps, names, key)
  }
}
