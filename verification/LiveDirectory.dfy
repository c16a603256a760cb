/** The directory as a live object, whose maps, list and counters its methods change in place. */
module LiveDirectory {
  import opened Wrappers
  import opened Keys
  import opened Tombstones
  import opened Generations
  import opened Peers
  import opened Directory

  class PeerDirectory {
    const host: Host
    var admitted: Admitted
    var candidates: map<string, Offer>
    var tombstones: seq<Tombstone>
    var routeGen: nat
    var routeGenApplied: nat
    var notified: set<Key>
    var generation: nat

    ghost function Now(): Dir
      reads this
    {
      Dir(admitted, candidates, GenFile(routeGen, routeGenApplied, tombstones), notified)
    }

    constructor (host: Host, admitted: Admitted, candidates: map<string, Offer>, file: GenFile)
      ensures this.host == host && generation == 0
      ensures Now() == Dir(admitted, candidates, Load(file), {})
    {
      this.host, this.admitted, this.candidates := host, admitted, candidates;
      routeGen := Clamp(Max(Max(file.routeGen, file.applied), MaxGen(file.tombstones)));
      routeGenApplied := Clamp(file.applied);
      tombstones := Prune(file.tombstones, Clamp(file.applied));
      notified, generation := {}, 0;
    }

    method Notify(k: Option<Key>)
      modifies this`notified
      ensures Now() == Directory.Notify(old(Now()), k)
    {
      if k.Some? { notified := notified + {k.value}; }
    }

    method Commit(n: string, p: Peer)
      modifies this`admitted
      ensures Now() == Directory.Commit(old(Now()), n, p)
    {
      var held := if n in admitted then admitted[n].rev else 0;
      admitted := admitted[n := p.(rev := MaxNat(held, p.rev) + 1)];
    }

    /** Reset the pending tombstone of that identity in place, or append one. */
    method Bury(k: Option<Key>, reason: Reason)
      modifies this`tombstones
      ensures Now() == Directory.Bury(old(Now()), k, host.now, reason)
    {
      var id := KeyIdOf(k);
      if id.None? { return; }
      var retired := Tombstone(id.value, host.now, reason, Provisional);
      var i := 0;
      while i < |tombstones| && tombstones[i].id != id.value
        invariant i <= |tombstones|
        invariant forall j :: 0 <= j < i ==> tombstones[j].id != id.value
      {
        i := i + 1;
      }
      MintAt(tombstones, i, retired);
      tombstones := if i < |tombstones| then tombstones[i := retired] else tombstones + [retired];
    }

    method Admit(n: string, offer: Offer, requested: Option<Value>, until: int) returns (ok: bool)
      modifies this`admitted, this`candidates
      ensures Now() == Apply(host, old(Now()), Op.Admit(n, offer, requested, until))
      ensures ok <==> until == 0 || requested.Some?
    {
      if until != 0 && requested.None? { return false; }
      var heardOf := n in candidates;
      var fallback := if heardOf && !offer.broughtAddress then host.trust.candidateProfile else host.trust.admitProfile;
      var existing := Lookup(admitted, n);
      var raise := Elevation(existing, requested, until, fallback, host.trust, host.now);
      var stored;
      if existing.None? {
        stored := Peer(offer.publicKey, offer.sealPublicKey, false, None, false, 0, 0, (offer.fields - OURS) + raise);
      } else {
        var p := existing.value;
        stored := p.(publicKey := OrElse(p.publicKey, offer.publicKey),
                     fields := (host.fold(p.fields, offer.fields) - OURS) + Only(p.fields, {"conflicts"}) + raise);
      }
      Commit(n, stored);
      candidates := candidates - {n};
      ok := true;
    }

    method Forget(n: string) returns (removed: bool)
      modifies this`admitted, this`candidates, this`notified, this`tombstones
      ensures Now() == Apply(host, old(Now()), ForgetPeer(n))
      ensures removed <==> n in old(admitted) || n in old(candidates)
    {
      removed := n in admitted || n in candidates;
      if n in admitted {
        var k := admitted[n].publicKey;
        admitted := admitted - {n};
        Notify(k);
        Bury(k, OnForget);
      } else {
        candidates := candidates - {n};
      }
    }

    /** `learnFrom`: every peer of one introduction, the directory's own name skipped. */
    method LearnFrom(self: string, peers: seq<(string, Offer)>)
      modifies this`admitted, this`candidates
      ensures Now() == LearnAll(host, old(Now()), self, peers)
    {
      for i := 0 to |peers|
        invariant LearnAll(host, Now(), self, peers[i..]) == LearnAll(host, old(Now()), self, peers)
        invariant notified == old(notified) && tombstones == old(tombstones)
        invariant routeGen == old(routeGen) && routeGenApplied == old(routeGenApplied)
      {
        assert peers[i..][0] == peers[i] && peers[i..][1..] == peers[i + 1..];
        var (n, offer) := peers[i];
        if n != self { LearnOne(n, offer); }
      }
      assert peers[|peers|..] == [];
    }

    method LearnOne(n: string, offer: Offer)
      modifies this`admitted, this`candidates
      ensures Now() == Apply(host, old(Now()), LearnOf(n, offer))
    {
      if n in admitted {
        var p := admitted[n];
        var fields := host.fold(p.fields, offer.fields);
        Commit(n, KeepOurs(OrElse(p.publicKey, offer.publicKey), p.sealPublicKey, fields, p));
      } else if n in candidates {
        var c := candidates[n];
        var merged := Offer(OrElse(c.publicKey, offer.publicKey), c.sealPublicKey, host.fold(c.fields, offer.fields),
                            c.broughtAddress);
        candidates := candidates[n := merged];
      } else {
        candidates := candidates[n := offer];
      }
    }

    method RotateKey(n: string, key: Option<Key>) returns (done: bool)
      modifies this`admitted, this`notified, this`tombstones
      ensures Now() == Apply(host, old(Now()), Op.RotateKey(n, key))
      ensures done <==> n in old(admitted) && key.Some?
    {
      if n !in admitted || key.None? { return false; }
      var p := admitted[n];
      Notify(p.publicKey);
      Bury(p.publicKey, OnRotate);
      Commit(n, Rekeyed(p, key.value));
      done := true;
    }

    method BindSealKey(n: string, key: Option<Key>, expected: Option<Option<Key>>)
      modifies this`admitted, this`notified
      ensures Now() == Apply(host, old(Now()), Op.BindSealKey(n, key, expected))
    {
      if n !in admitted || key.None? { return; }
      var p := admitted[n];
      if expected.Some? {
        if expected.value.None? || p.publicKey.None? || !SameKey(p.publicKey, expected.value) { return; }
      }
      if p.sealSeen && p.sealPublicKey.Some? && !SameKey(p.sealPublicKey, key) {
        if p.sealConflict.Some? { return; }
        Notify(p.publicKey);
        Commit(n, p.(sealConflict := key));
        return;
      }
      if p.sealSeen && SameKey(p.sealPublicKey, key) { return; }
      Notify(p.publicKey);
      Commit(n, p.(sealPublicKey := key, sealSeen := true, sealRequired := true));
    }

    method MarkReachable(n: string)
      modifies this`admitted
      ensures Now() == Apply(host, old(Now()), Op.MarkReachable(n))
    {
      if n !in admitted { return; }
      var p := admitted[n];
      Commit(n, KeepOurs(p.publicKey, p.sealPublicKey, host.stamp(p.fields), p));
    }

    method BindKey(n: string, key: Option<Key>)
      modifies this`admitted
      ensures Now() == Apply(host, old(Now()), Op.BindKey(n, key))
    {
      if n !in admitted || admitted[n].publicKey.Some? || key.None? { return; }
      var p := admitted[n];
      Commit(n, KeepOurs(key, p.sealPublicKey, host.rebuild(p.fields), p));
    }

    method NoteBinding(n: string, version: nat)
      modifies this`admitted
      ensures Now() == Apply(host, old(Now()), Op.NoteBinding(n, version))
    {
      if n !in admitted || version == 0 || admitted[n].bindingSeen >= version { return; }
      Commit(n, admitted[n].(bindingSeen := version));
    }

    method NoteKeyConflict(n: string, key: Option<Key>)
      modifies this`admitted
      ensures Now() == Apply(host, old(Now()), Op.NoteKeyConflict(n, key))
    {
      if n !in admitted || key.None? || SameKey(key, admitted[n].publicKey) { return; }
      var p := admitted[n];
      Commit(n, p.(fields := p.fields["conflicts" := host.listed(FieldOf(p.fields, "conflicts"), key.value)]));
    }

    /** Whatever a page or a command asks for. */
    method Perform(op: Op)
      modifies this`admitted, this`candidates, this`notified, this`tombstones
      ensures Now() == Apply(host, old(Now()), op)
    {
      match op
      case Admit(n, offer, requested, until) => var _ := Admit(n, offer, requested, until);
      case ForgetPeer(n) => var _ := Forget(n);
      case LearnOf(n, offer) => LearnOne(n, offer);
      case MarkReachable(n) => MarkReachable(n);
      case BindKey(n, key) => BindKey(n, key);
      case RotateKey(n, key) => var _ := RotateKey(n, key);
      case BindSealKey(n, key, expected) => BindSealKey(n, key, expected);
      case AcceptSealKey(n, key) => AcceptSealKey(n, key);
      case NoteBinding(n, version) => NoteBinding(n, version);
      case NoteKeyConflict(n, key) => NoteKeyConflict(n, key);
    }

    method AcceptSealKey(n: string, key: Option<Key>)
      modifies this`admitted, this`notified
      ensures Now() == Apply(host, old(Now()), Op.AcceptSealKey(n, key))
    {
      if n !in admitted { return; }
      var p := admitted[n];
      var chosen := OrElse(OrElse(key, p.sealConflict), p.sealPublicKey);
      if chosen.None? { return; }
      Notify(p.publicKey);
      Commit(n, p.(sealPublicKey := chosen, sealSeen := true, sealConflict := None, sealRequired := true));
    }

    /** Swap everything in as a unit, then report the identities that are gone or now carry a posture. */
    method Adopt(nextAdmitted: Admitted, nextCandidates: map<string, Offer>, incoming: GenFile)
      modifies this
      ensures Now() == Adopting(old(Now()), nextAdmitted, nextCandidates, incoming)
      ensures generation == old(generation) + 1
    {
      var before := Identities(admitted);
      admitted, candidates := nextAdmitted, nextCandidates;
      routeGen := Clamp(Max(Max(routeGen, incoming.routeGen), MaxGen(incoming.tombstones)));
      routeGenApplied := Clamp(Max(routeGenApplied, incoming.applied));
      tombstones := Prune(incoming.tombstones, routeGenApplied);
      Report(before - Identities(admitted));
      ReportPostures();
      generation := generation + 1;
    }

    method Report(keys: set<Key>)
      modifies this`notified
      ensures notified == old(notified) + keys
    {
      var todo := keys;
      while todo != {}
        invariant notified + todo == old(notified) + keys
        decreases todo
      {
        var k :| k in todo;
        todo := todo - {k};
        Notify(Some(k));
      }
    }

    method ReportPostures()
      modifies this`notified
      ensures notified == old(notified) + Postured(admitted)
    {
      var names := admitted.Keys;
      assert PosturedOf(admitted, names) == Postured(admitted);
      while names != {}
        invariant names <= admitted.Keys
        invariant notified + PosturedOf(admitted, names) == old(notified) + Postured(admitted)
        decreases names
      {
        var n :| n in names;
        PosturedSplit(admitted, names, n);
        names := names - {n};
        if HasPosture(admitted[n]) { Notify(admitted[n].publicKey); }
      }
    }

    method MarkTombstonesApplied(through: nat)
      modifies this`routeGenApplied, this`tombstones
      ensures Now() == old(Now()).(gens := MarkApplied(old(Now()).gens, through))
    {
      var g := Clamp(through);
      if g > routeGenApplied { routeGenApplied := g; }
      tombstones := Prune(tombstones, routeGenApplied);
    }

    /** One pass over the aliases of an identity, the worst of them deciding. */
    method SealForIdentity(k: Option<Key>) returns (r: Posture)
      ensures IsPosture(admitted, Aliases(admitted, k), r)
    {
      var aliases := Aliases(admitted, k);
      if aliases == {} { return Posture(Unverified, None); }
      var sawReverify, first: Option<Key>, agree := false, None, true;
      var todo := aliases;
      while todo != {}
        invariant todo <= aliases
        invariant forall n :: n in aliases - todo ==> !StateOf(admitted[n]).Conflict?
        invariant sawReverify <==> exists n :: n in aliases - todo && StateOf(admitted[n]).Reverify?
        invariant first.Some? <==> exists n :: n in aliases - todo && StateOf(admitted[n]).Verified?
        invariant first.Some? ==>
                    exists n :: n in aliases - todo && StateOf(admitted[n]).Verified?
                        && admitted[n].sealPublicKey == first
        invariant agree <==>
                    forall n :: n in aliases - todo && StateOf(admitted[n]).Verified? ==>
                        admitted[n].sealPublicKey == first
        decreases todo
      {
        var n :| n in todo;
        todo := todo - {n};
        match StateOf(admitted[n])
        case Conflict => return Posture(Conflict, None);
        case Reverify => sawReverify := true;
        case Verified =>
          if first.None? { first := SealKey(admitted[n]); }
          else if !SameKey(SealKey(admitted[n]), first) { agree := false; }
        case Unverified =>
      }
      if sawReverify { return Posture(Reverify, None); }
      if first.None? { return Posture(Unverified, None); }
      r := if agree then Posture(Verified, first) else Posture(Conflict, None);
    }
  }

  function LearnAll(h: Host, d: Dir, self: string, peers: seq<(string, Offer)>): Dir
    decreases |peers|
  {
    if peers == [] then d
    else LearnAll(h, if peers[0].0 == self then d else Learn(h, d, peers[0].0, peers[0].1), self, peers[1..])
  }

  function PosturedOf(ps: Admitted, names: set<string>): set<Key> {
    set n | n in names && n in ps && ps[n].publicKey.Some? && HasPosture(ps[n]) :: ps[n].publicKey.value
  }

  lemma PosturedSplit(ps: Admitted, names: set<string>, n: string)
    requires n in names && n in ps
    ensures PosturedOf(ps, names) == PosturedOf(ps, names - {n})
              + if ps[n].publicKey.Some? && HasPosture(ps[n]) then {ps[n].publicKey.value} else {}
  {
    forall k | k in PosturedOf(ps, names) && k !in PosturedOf(ps, names - {n})
      ensures Some(k) == ps[n].publicKey && HasPosture(ps[n])
    {
      var m :| m in names && m in ps && ps[m].publicKey == Some(k) && HasPosture(ps[m]);
      assert m == n || m in names - {n};
    }
  }

  /** Minting resets the first tombstone of that identity, or appends. */
  lemma {:induction false} MintAt(ts: seq<Tombstone>, i: nat, t: Tombstone)
    requires t.gen.Provisional? && i <= |ts|
    requires forall j :: 0 <= j < i ==> ts[j].id != t.id
    requires i < |ts| ==> ts[i].id == t.id
    ensures Mint(ts, t.id, t.at, t.reason) == if i < |ts| then ts[i := t] else ts + [t]
  {
    if i > 0 {
      MintAt(ts[1..], i - 1, t);
      assert ts == [ts[0]] + ts[1..];
      if i < |ts| { UpdateTail(ts, i, t); } else { assert ts + [t] == [ts[0]] + (ts[1..] + [t]); }
    } else if i < |ts| {
      assert ts[0 := t] == [t] + ts[1..];
    }
  }
}
