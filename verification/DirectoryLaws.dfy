/** What each mutation of the directory leaves: of the record it names, of every other, and of the identity it
    retires. */
module DirectoryLaws {
  import opened Wrappers
  import opened Keys
  import opened Tombstones
  import opened Generations
  import opened Peers
  import opened Directory

  // ----------------------------------------------------------------------- all of them

  /** No mutation touches another name, the counters, or an identity that its own peer does not hold. */
  lemma OnlyItsName(h: Host, d: Dir, op: Op, m: string)
    requires m != op.name
    ensures var d' := Apply(h, d, op);
            && Lookup(d'.admitted, m) == Lookup(d.admitted, m)
            && (m in d'.candidates <==> m in d.candidates)
            && (m in d.candidates ==> d'.candidates[m] == d.candidates[m])
            && d'.gens.routeGen == d.gens.routeGen && d'.gens.applied == d.gens.applied
  {
  }

  /** A record that a mutation changes is one revision up, and a new one is at its first. */
  lemma EveryChangeIsARevision(h: Host, d: Dir, op: Op)
    requires op.name in Apply(h, d, op).admitted
    ensures var q := Apply(h, d, op).admitted[op.name];
            if op.name in d.admitted then q == d.admitted[op.name] || q.rev == d.admitted[op.name].rev + 1
            else op.Admit? && q.rev == 1
  {
  }

  /** Retired: held by the peer when it is forgotten or given another key. */
  predicate Retires(d: Dir, op: Op) {
    op.name in d.admitted && (op.ForgetPeer? || (op.RotateKey? && op.key.Some?))
  }

  /** Only that retires an identity: it is buried provisionally, under that reason and at this time, in place of any
      older tombstone of it, and every other tombstone stays. */
  lemma RetirementIsBuried(h: Host, d: Dir, op: Op, id: KeyId)
    ensures var (ts, ts') := (d.gens.tombstones, Apply(h, d, op).gens.tombstones);
            if Retires(d, op) && KeyIdOf(d.admitted[op.name].publicKey) == Some(id) then
              && Tombstone(id, h.now, if op.ForgetPeer? then OnForget else OnRotate, Provisional) in ts'
              && (DistinctIds(ts) ==> forall t :: t in ts' && t.id == id ==>
                                        t == Tombstone(id, h.now, if op.ForgetPeer? then
                                                       OnForget else OnRotate, Provisional))
            else forall t: Tombstone :: t.id == id ==> (t in ts <==> t in ts')
  {
    if Retires(d, op) && KeyIdOf(d.admitted[op.name].publicKey).Some? {
      MintIs(d.gens.tombstones, KeyIdOf(d.admitted[op.name].publicKey).value, h.now,
             if op.ForgetPeer? then OnForget else OnRotate);
    }
  }

  lemma {:induction false} MintIs(ts: seq<Tombstone>, id: KeyId, at: int, reason: Reason)
    ensures forall t: Tombstone :: t.id != id ==> (t in ts <==> t in Mint(ts, id, at, reason))
    ensures Tombstone(id, at, reason, Provisional) in Mint(ts, id, at, reason)
    ensures DistinctIds(ts) ==>
              forall t :: t in Mint(ts, id, at, reason) && t.id == id ==> t == Tombstone(id, at, reason, Provisional)
  {
    if ts != [] && ts[0].id == id {
      var rest := ts[1..];
      assert ts == [ts[0]] + rest;
      assert DistinctIds(ts) ==> forall i :: 0 <= i < |rest| ==> rest[i].id != id;
    } else if ts != [] {
      assert ts == [ts[0]] + ts[1..];
      MintIs(ts[1..], id, at, reason);
    }
  }

  /** The listener is told of the identity held before, exactly when it was retired or its sealing posture was set. */
  lemma ListenerIsTold(h: Host, d: Dir, op: Op)
    ensures var d' := Apply(h, d, op);
            var held := if op.name in d.admitted then d.admitted[op.name].publicKey else None;
            var posture := (op.BindSealKey? && d' != d)
                           || (op.AcceptSealKey? && op.name in d.admitted
                               && (op.key.Some? || d.admitted[op.name].sealConflict.Some?
                                   || d.admitted[op.name].sealPublicKey.Some?));
            d'.notified == d.notified + (if held.Some? && (Retires(d, op) || posture) then {held.value} else {})
  {
  }

  // ------------------------------------------------------------------------ one by one

  /** A replaced identity takes its sealing key, its mark and every conflict with it; the floors and the rest stay, so
      nothing is sealed to the old holder and a peer once sealed to waits for a walk. */
  lemma RotationDropsTheBinding(h: Host, d: Dir, n: string, key: Key)
    requires n in d.admitted
    ensures var (p, d') := (d.admitted[n], Apply(h, d, RotateKey(n, Some(key))));
            && n in d'.admitted
            && var q := d'.admitted[n];
            && q.publicKey == Some(key)
            && q.sealPublicKey.None? && !q.sealSeen && q.sealConflict.None? && Get(q, "conflicts").None?
            && q.sealRequired == p.sealRequired && q.bindingSeen == p.bindingSeen && q.rev == p.rev + 1
            && (forall f :: f != "conflicts" ==> Get(q, f) == Get(p, f))
            && SealKey(q).None? && StateOf(q) == (if p.sealRequired then Reverify else Unverified)
            && d'.candidates == d.candidates
  {
  }

  lemma RotationNeedsAKey(h: Host, d: Dir, n: string, key: Option<Key>)
    requires n !in d.admitted || key.None?
    ensures Apply(h, d, RotateKey(n, key)) == d
  {
  }

  /** A forgotten peer is gone; a name only heard of is dropped from those. */
  lemma ForgettingRemoves(h: Host, d: Dir, n: string)
    ensures var d' := Apply(h, d, ForgetPeer(n));
            && n !in d'.admitted
            && (n in d.admitted ==> d'.candidates == d.candidates)
            && (n !in d.admitted ==> d'.candidates == d.candidates - {n} && d'.admitted == d.admitted)
  {
  }

  predicate SamePosture(q: Peer, p: Peer) {
    && SealOf(q) == SealOf(p) && q.sealRequired == p.sealRequired && q.bindingSeen == p.bindingSeen
  }

  /** Binding a first sealing key, for the identity it was proved for: it is usable, and the floor is set for good. */
  lemma FirstBindingIsUsable(h: Host, d: Dir, n: string, key: Key, expected: Option<Option<Key>>)
    requires n in d.admitted && (expected.Some? ==> expected.value.Some? && d.admitted[n].publicKey == expected.value)
    requires !(d.admitted[n].sealSeen && d.admitted[n].sealPublicKey.Some?)
    ensures var (p, q) := (d.admitted[n], Apply(h, d, BindSealKey(n, Some(key), expected)).admitted[n]);
            q == p.(sealPublicKey := Some(key), sealSeen := true, sealRequired := true, rev := p.rev + 1)
  {
  }

  /** A second, different one is the pending conflict; a third changes nothing, nor does the bound one again. */
  lemma LaterBindingsDoNotReplace(h: Host, d: Dir, n: string, key: Key, expected: Option<Option<Key>>)
    requires n in d.admitted && (expected.Some? ==> expected.value.Some? && d.admitted[n].publicKey == expected.value)
    requires d.admitted[n].sealSeen && d.admitted[n].sealPublicKey.Some?
    ensures var (p, q) := (d.admitted[n], Apply(h, d, BindSealKey(n, Some(key), expected)).admitted[n]);
            if p.sealPublicKey == Some(key) || p.sealConflict.Some? then q == p
            else q == p.(sealConflict := Some(key), rev := p.rev + 1)
  {
  }

  /** A binding proved for another identity, or for none, or of no key, changes nothing. */
  lemma UnprovenBindingIsIgnored(h: Host, d: Dir, n: string, key: Option<Key>, expected: Option<Option<Key>>)
    requires n !in d.admitted || key.None?
             || (expected.Some? && (expected.value.None? || d.admitted[n].publicKey != expected.value))
    ensures Apply(h, d, BindSealKey(n, key, expected)) == d
  {
  }

  /** A person's choice: the key named, else the pending one, else the held one. It is usable, and the dispute is
      over. */
  lemma AcceptanceSettles(h: Host, d: Dir, n: string, key: Option<Key>)
    ensures var d' := Apply(h, d, AcceptSealKey(n, key));
            if n !in d.admitted then d' == d
            else
              var p := d.admitted[n];
              var chosen := if key.Some? then key else if p.sealConflict.Some? then p.sealConflict else p.sealPublicKey;
              if chosen.None? then d' == d
              else
                && d'.admitted[n] == p.(sealPublicKey := chosen, sealSeen := true, sealConflict := None,
                                        sealRequired := true, rev := p.rev + 1)
                && SealKey(d'.admitted[n]) == chosen
  {
  }

  /** A binding version only rises. */
  lemma BindingVersionRises(h: Host, d: Dir, n: string, version: nat)
    requires n in d.admitted
    ensures var (p, q) := (d.admitted[n], Apply(h, d, NoteBinding(n, version)).admitted[n]);
            if version <= p.bindingSeen then q == p else q == p.(bindingSeen := version, rev := p.rev + 1)
  {
  }

  /** A competing key is listed, unless it is the one held. */
  lemma CompetingKeyIsListed(h: Host, d: Dir, n: string, key: Key)
    requires n in d.admitted
    ensures var (p, q) := (d.admitted[n], Apply(h, d, NoteKeyConflict(n, Some(key))).admitted[n]);
            if p.publicKey == Some(key) then q == p
            else
              && Get(q, "conflicts") == Some(h.listed(Get(p, "conflicts"), key))
              && (forall f :: f != "conflicts" ==> Get(q, f) == Get(p, f))
              && q.publicKey == p.publicKey && SamePosture(q, p)
  {
  }

  /** What is ours of a record, and not the peer's to say. */
  predicate KeptOurs(q: Peer, p: Peer) {
    && SamePosture(q, p)
    && forall f :: f in {"profile", "conflicts", "profileUntil", "profileAfter"} ==> Get(q, f) == Get(p, f)
  }

  /** And what the peer, or a route to it, says of itself. */
  ghost predicate TakesTheirs(q: Peer, theirs: Fields) {
    forall f :: f !in {"profile", "conflicts", "profileUntil", "profileAfter"} ==> Get(q, f) == FieldOf(theirs, f)
  }

  /** A stamped route, an introduction and a first identity key rebuild a record and keep what is ours; a held identity
      is never replaced. */
  lemma RebuildsKeepOurs(h: Host, d: Dir, n: string, offer: Offer, key: Key)
    requires n in d.admitted
    ensures var p := d.admitted[n];
            var learned := Apply(h, d, LearnOf(n, offer)).admitted[n];
            var stamped := Apply(h, d, MarkReachable(n)).admitted[n];
            var bound := Apply(h, d, BindKey(n, Some(key))).admitted[n];
            && KeptOurs(learned, p) && TakesTheirs(learned, h.fold(p.fields, offer.fields))
            && learned.publicKey == (if p.publicKey.Some? then p.publicKey else offer.publicKey)
            && KeptOurs(stamped, p) && TakesTheirs(stamped, h.stamp(p.fields)) && stamped.publicKey == p.publicKey
            && (p.publicKey.Some? ==> bound == p)
            && (p.publicKey.None? ==>
                  KeptOurs(bound, p) && TakesTheirs(bound, h.rebuild(p.fields)) && bound.publicKey == Some(key))
  {
  }

  /** What is heard of a name nobody admitted is noted, merged with what was heard before, and admits nobody. */
  lemma HearsayAdmitsNobody(h: Host, d: Dir, n: string, offer: Offer)
    requires n !in d.admitted
    ensures var d' := Apply(h, d, LearnOf(n, offer));
            && d'.admitted == d.admitted && n in d'.candidates
            && (n !in d.candidates ==> d'.candidates[n] == offer)
            && (n in d.candidates ==>
                  var (was, now) := (d.candidates[n], d'.candidates[n]);
                  && now.publicKey == (if was.publicKey.Some? then was.publicKey else offer.publicKey)
                  && now.fields == h.fold(was.fields, offer.fields) && now.sealPublicKey == was.sealPublicKey)
  {
  }

  /** What the admission of a known peer leaves: what was bound, disputed or required of it, and its identity once
      held. */
  ghost predicate ReadmittedAs(h: Host, p: Peer, offer: Offer, q: Peer) {
    && SamePosture(q, p) && q.publicKey == (if p.publicKey.Some? then p.publicKey else offer.publicKey)
    && Get(q, "conflicts") == Get(p, "conflicts") && TakesTheirs(q, h.fold(p.fields, offer.fields))
  }

  /** A peer admitted for the first time: nothing verified, disputed or required yet. */
  ghost predicate AdmittedAs(offer: Offer, q: Peer) {
    && StateOf(q).Unverified? && !q.sealSeen && q.sealConflict.None? && q.bindingSeen == 0
    && q.publicKey == offer.publicKey && q.sealPublicKey == offer.sealPublicKey
    && Get(q, "conflicts").None? && TakesTheirs(q, offer.fields)
  }

  lemma ReadmissionKeeps(h: Host, d: Dir, n: string, offer: Offer, requested: Option<Value>, until: int)
    requires n in d.admitted
    ensures ReadmittedAs(h, d.admitted[n], offer, Admitting(h, d, n, offer, requested, until))
  {
  }

  lemma FirstAdmissionIs(h: Host, d: Dir, n: string, offer: Offer, requested: Option<Value>, until: int)
    requires n !in d.admitted
    ensures AdmittedAs(offer, Admitting(h, d, n, offer, requested, until))
  {
  }

  /** Admission: a raise must say to what. What was bound, disputed or required of the peer stays, its identity stays
      once held, and it leaves the candidates. */
  lemma AdmissionKeepsTrust(h: Host, d: Dir, n: string, offer: Offer, requested: Option<Value>, until: int)
    ensures AdmitPeer(h, d, n, offer, requested, until).Err? <==> until != 0 && requested.None?
    ensures AdmitPeer(h, d, n, offer, requested, until).Err? ==> Apply(h, d, Admit(n, offer, requested, until)) == d
    ensures AdmitPeer(h, d, n, offer, requested, until).Ok? ==>
              var d' := Apply(h, d, Admit(n, offer, requested, until));
              && n in d'.admitted && d'.candidates == d.candidates - {n}
              && if n in d.admitted then ReadmittedAs(h, d.admitted[n], offer, d'.admitted[n])
                 else AdmittedAs(offer, d'.admitted[n])
  {
    if n in d.admitted { ReadmissionKeeps(h, d, n, offer, requested, until); }
    else { FirstAdmissionIs(h, d, n, offer, requested, until); }
  }

  /** Where a peer lands that nobody gave a profile: with the candidates, if it was heard of and brought no address. */
  function Lands(h: Host, d: Dir, n: string, offer: Offer): Value {
    if n in d.candidates && !offer.broughtAddress then h.trust.candidateProfile else h.trust.admitProfile
  }

  function HeldFields(d: Dir, n: string): Fields { if n in d.admitted then d.admitted[n].fields else map[] }

  /** The profile is the one asked for, else the one held, else where such a peer lands. */
  lemma AdmissionSetsProfile(h: Host, d: Dir, n: string, offer: Offer, requested: Option<Value>, until: int)
    requires until != 0 ==> requested.Some?
    ensures Get(Apply(h, d, Admit(n, offer, requested, until)).admitted[n], "profile")
         == if requested.Some? then requested
            else if "profile" in HeldFields(d, n) then Some(HeldFields(d, n)["profile"])
            else Some(Lands(h, d, n, offer))
  {
  }

  /** A raise ends at the time given, back to what it was raised from, which a running raise does not change. */
  lemma RaiseHasAnEnd(h: Host, d: Dir, n: string, offer: Offer, profile: Value, until: int)
    requires until != 0
    ensures var q := Apply(h, d, Admit(n, offer, Some(profile), until)).admitted[n];
            && Get(q, "profileUntil") == Some(Number(until))
            && Get(q, "profileAfter") == Some(FellBackTo(h, HeldFields(d, n), n in d.admitted, Lands(h, d, n, offer)))
  {
  }

  /** A profile for good ends a raise; asking for none leaves it running. */
  lemma RaiseEndsOrRuns(h: Host, d: Dir, n: string, offer: Offer, requested: Option<Value>)
    ensures var (q, held) := (Apply(h, d, Admit(n, offer, requested, 0)).admitted[n], HeldFields(d, n));
            if requested.None? && RaiseEnd(held) != 0 then
              Get(q, "profileUntil") == FieldOf(held, "profileUntil")
                && Get(q, "profileAfter") == FieldOf(held, "profileAfter")
            else Get(q, "profileUntil").None? && Get(q, "profileAfter").None?
  {
  }

  /** When a raise ends; 0 when there is none. */
  function RaiseEnd(held: Fields): int {
    if "profileUntil" in held && held["profileUntil"].Number? then held["profileUntil"].n else 0
  }

  /** Where a record stands once any raise of it is over. */
  function FellBackTo(h: Host, held: Fields, known: bool, lands: Value): Value {
    if !known then lands
    else if RaiseEnd(held) == 0 then (if "profile" in held then held["profile"] else lands)
    else if "profileAfter" in held then held["profileAfter"]
    else if RaiseEnd(held) > h.now then lands
    else h.trust.candidateProfile
  }

  /** The profile in force: the one held, until a raise of it has ended. */
  lemma ProfileInForce(fields: Fields, trust: Trust, now: int)
    ensures EffectiveProfile(fields, trust, now)
         == if RaiseEnd(fields) == 0 || now < RaiseEnd(fields) then FieldOf(fields, "profile")
            else if "profileAfter" in fields then Some(fields["profileAfter"]) else Some(trust.candidateProfile)
  {
  }

  // ------------------------------------------------------------------------- postures

  /** How far a posture is from safe to send under. */
  function Severity(s: SealState): nat {
    match s
    case Unverified => 0
    case Verified => 1
    case Reverify => 2
    case Conflict => 3
  }

  /** An identity is in the worst posture any of its names is in; two names verified with different keys are a conflict;
      and a key is given exactly with a verified posture. */
  lemma WorstNameDecides(ps: Admitted, names: set<string>, r: Posture)
    requires IsPosture(ps, names, r)
    ensures forall n :: n in names && n in ps ==> Severity(StateOf(ps[n])) <= Severity(r.state)
    ensures r.key.Some? <==> r.state.Verified?
    ensures r.key.Some? ==> forall n ::
            n in names && n in ps && StateOf(ps[n]).Verified? ==> ps[n].sealPublicKey == r.key
    ensures !r.state.Unverified? ==>
              || (exists n :: n in names && n in ps && StateOf(ps[n]) == r.state)
              || (r.state.Conflict? && exists n, m :: n in names && n in ps && m in names && m in ps
                                                      && StateOf(ps[n]).Verified? && StateOf(ps[m]).Verified?
                                                      && ps[n].sealPublicKey != ps[m].sealPublicKey)
  {
    if r.state.Conflict? && !SomeIn(ps, names, Conflict) {
      var n :| n in names && n in ps && StateOf(ps[n]).Verified?;
      assert !AgreedKey(ps, names, ps[n].sealPublicKey);
    }
  }

  /** One name's posture: a pending conflict first, then a key some walk bound, then the floor. */
  lemma PostureOfOne(p: Peer)
    ensures StateOf(p).Conflict? <==> p.sealConflict.Some?
    ensures StateOf(p).Verified? <==> p.sealConflict.None? && p.sealSeen && p.sealPublicKey.Some?
    ensures StateOf(p).Reverify? <==> p.sealConflict.None? && !(p.sealSeen && p.sealPublicKey.Some?) && p.sealRequired
    ensures SealKey(p).Some? ==> SealKey(p) == p.sealPublicKey && StateOf(p).Verified?
  {
  }

  /** The names of an identity are those whose key is that key, however written. */
  lemma AliasesShareTheKey(ps: Admitted, k: Option<Key>, n: string)
    ensures n in Aliases(ps, k)
       <==> n in ps && ps[n].publicKey.Some? && k.Some? && !k.value.kind.Unparseable?
            && ps[n].publicKey.value.kind == k.value.kind && ps[n].publicKey.value.id == k.value.id
  {
  }

  // ------------------------------------------------------------------------- adoption

  predicate HeldBy(ps: Admitted, k: Key) { exists n :: n in ps && ps[n].publicKey == Some(k) }

  /** Some peer of that identity has been sealed to, or is in dispute. */
  predicate Sealing(ps: Admitted, k: Key) {
    exists n :: n in ps && ps[n].publicKey == Some(k)
        && (ps[n].sealSeen || ps[n].sealConflict.Some? || ps[n].sealRequired)
  }

  /** Adopting another state takes its peers and its tombstones but for the consumed ones, lowers no counter, and
      reports every identity that is gone or now has a sealing posture. */
  lemma AdoptionReports(d: Dir, admitted: Admitted, candidates: map<string, Offer>, gens: GenFile, k: Key)
    requires d.gens.routeGen <= CEILING && d.gens.applied <= CEILING
    requires gens.routeGen <= CEILING && gens.applied <= CEILING && MaxGen(gens.tombstones) <= CEILING
    ensures var d' := Adopting(d, admitted, candidates, gens);
            && d'.admitted == admitted && d'.candidates == candidates
            && d.gens.routeGen <= d'.gens.routeGen && gens.routeGen <= d'.gens.routeGen
            && (forall t :: t in gens.tombstones && t.gen.Finalized? ==> t.gen.n <= d'.gens.routeGen)
            && d'.gens.applied == (if d.gens.applied < gens.applied then gens.applied else d.gens.applied)
            && (forall t :: t in d'.gens.tombstones
                  <==> t in gens.tombstones && !(t.gen.Finalized? && t.gen.n <= d'.gens.applied))
            && (k in d'.notified
                <==> k in d.notified || (HeldBy(d.admitted, k) && !HeldBy(admitted, k)) || Sealing(admitted, k))
  {
  }
}
