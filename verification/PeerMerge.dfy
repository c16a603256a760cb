/** What the three-way merge of admitted peers keeps: identities, sealing postures, fields and names. */
module PeerMerge {
  import opened Wrappers
  import opened Keys
  import opened Peers

  /** A deliberate mutation of a record through `commit`: anything may change except that the revision
      rises, the floors do not fall, and an identity once held is not dropped. */
  predicate Descends(p: Peer, base: Peer) {
    && (p == base || p.rev > base.rev)
    && base.bindingSeen <= p.bindingSeen
    && (base.sealRequired ==> p.sealRequired)
    && (base.publicKey.Some? ==> p.publicKey.Some?)
  }

  predicate Parses(k: Option<Key>) { k.Some? && !k.value.kind.Unparseable? }

  // ------------------------------------------------------------------- identities

  /** The revision failed to record that a side moved while the other side's did move. */
  predicate Stalled(moved: Peer, other: Peer, base: Peer) {
    moved.rev == base.rev && Rotated(moved, base) && !Rotated(other, base)
  }

  /** A retired key is back in the merge exactly when the side that rotated it carries the baseline's
      revision and the other side, still holding the key, is the one taken whole. */
  lemma RetiredKeyRestoredIff(ports: Ports, disk: Peer, mine: Peer, base: Peer)
    requires Parses(base.publicKey) && disk.publicKey.Some? && mine.publicKey.Some?
    requires Rotated(disk, base) || Rotated(mine, base)
    ensures SameCanonicalKey(MergeRecord(ports, disk, mine, Some(base)).publicKey, base.publicKey)
       <==> (Stalled(disk, mine, base) && mine.rev != base.rev) || Stalled(mine, disk, base)
  {
    if Decide(disk, mine, Some(base)).MergeBoth? {
      var sec := MergeSecurityUnit(disk, mine, base);
      assert sec.mineIdentity <==> Rotated(mine, base) && !Rotated(disk, base);
    }
  }

  /** So while each side descends from the baseline, a rotation is never undone, and the merged identity
      is one a side rotated to. */
  lemma RotationSurvives(ports: Ports, disk: Peer, mine: Peer, base: Peer)
    requires Parses(base.publicKey) && Descends(disk, base) && Descends(mine, base)
    requires Rotated(disk, base) || Rotated(mine, base)
    ensures var merged := MergeRecord(ports, disk, mine, Some(base));
            && Rotated(merged, base)
            && (merged.publicKey == disk.publicKey || merged.publicKey == mine.publicKey)
            && (Rotated(disk, base) ==> merged.publicKey == disk.publicKey)
  {
    RetiredKeyRestoredIff(ports, disk, mine, base);
  }

  // -------------------------------------------------------------- sealing postures

  /** `p`'s sealing key is usable, under the identity `q` holds. */
  predicate UsableUnder(p: Peer, q: Peer) {
    StateOf(p).Verified? && (p.publicKey == q.publicKey || SameCanonicalKey(p.publicKey, q.publicKey))
  }

  /** A sealing key usable after a merge was usable before it, on one side, under the same identity. */
  lemma UsableSealIsInherited(ports: Ports, disk: Peer, mine: Peer, base: Option<Peer>)
    requires base.Some? && base.value.publicKey.Some? ==> disk.publicKey.Some? && mine.publicKey.Some?
    ensures var merged := MergeRecord(ports, disk, mine, base);
            StateOf(merged).Verified? ==>
              || (UsableUnder(disk, merged) && merged.sealPublicKey == disk.sealPublicKey)
              || (UsableUnder(mine, merged) && merged.sealPublicKey == mine.sealPublicKey)
  {
  }

  /** Both sides moved, and neither or both to one new identity: the merge decides on sealing alone. */
  predicate OneIdentity(disk: Peer, mine: Peer, base: Peer) {
    && Decide(disk, mine, Some(base)).MergeBoth?
    && base.publicKey.Some?
    && Rotated(disk, base) == Rotated(mine, base)
    && (Rotated(disk, base) ==> SameCanonicalKey(disk.publicKey, mine.publicKey))
  }

  /** Two sealing keys bound concurrently to one identity, and not the same key. */
  predicate KeysDisagree(disk: Peer, mine: Peer) {
    && disk.sealPublicKey.Some? && mine.sealPublicKey.Some?
    && !SameCanonicalKey(disk.sealPublicKey, mine.sealPublicKey)
  }

  lemma DisagreeingKeysConflict(ports: Ports, disk: Peer, mine: Peer, base: Peer)
    requires OneIdentity(disk, mine, base)
    requires !SameSeal(disk, base) && !SameSeal(mine, base) && KeysDisagree(disk, mine)
    ensures var merged := MergeRecord(ports, disk, mine, Some(base));
            && StateOf(merged).Conflict?
            && merged.sealPublicKey == disk.sealPublicKey && merged.sealConflict == mine.sealPublicKey
  {
    assert MergeSecurityUnit(disk, mine, base).seal.Some?;
  }

  /** A conflict the writer has just found is lost exactly when disk also changed its sealing posture, is
      not itself in conflict, and the two keys do not disagree. */
  lemma ConflictLostIff(ports: Ports, disk: Peer, mine: Peer, base: Peer)
    requires OneIdentity(disk, mine, base)
    requires StateOf(mine).Conflict? && !StateOf(base).Conflict?
    ensures !StateOf(MergeRecord(ports, disk, mine, Some(base))).Conflict?
       <==> !SameSeal(disk, base) && !KeysDisagree(disk, mine) && disk.sealConflict.None?
  {
    assert !SameSeal(mine, base);
  }

  /** A conflict new on disk is never lost. */
  lemma DiskConflictKept(ports: Ports, disk: Peer, mine: Peer, base: Peer)
    requires OneIdentity(disk, mine, base)
    requires StateOf(disk).Conflict? && !StateOf(base).Conflict?
    ensures StateOf(MergeRecord(ports, disk, mine, Some(base))).Conflict?
  {
    assert !SameSeal(disk, base);
  }

  /** The floors hold whatever happened to the rest: the merge never turns a sealing peer back to clear. */
  lemma FloorsNeverFall(ports: Ports, disk: Peer, mine: Peer, base: Option<Peer>)
    ensures var merged := MergeRecord(ports, disk, mine, base);
            && disk.bindingSeen <= merged.bindingSeen && mine.bindingSeen <= merged.bindingSeen
            && (disk.sealRequired || mine.sealRequired ==> merged.sealRequired && !StateOf(merged).Unverified?)
            && (Decide(disk, mine, base).MergeBoth? ==> disk.rev <= merged.rev && mine.rev <= merged.rev)
  {
  }

  // ------------------------------------------------------------------------ fields

  /** One side changed it. */
  predicate OneSided(changed: Peer, other: Peer, base: Peer, f: string) {
    FieldChanged(changed, base, f) && !FieldChanged(other, base, f)
  }

  /** A field only one side changed keeps that side's value; `conflicts` goes with a changed identity instead. */
  lemma OneSidedFieldKept(ports: Ports, disk: Peer, mine: Peer, base: Peer, f: string)
    requires Decide(disk, mine, Some(base)).MergeBoth? && f !in ELEVATION
    requires f == "conflicts" ==> !MergeSecurityUnit(disk, mine, base).identityChanged
    ensures var merged := MergeRecord(ports, disk, mine, Some(base));
            && (OneSided(mine, disk, base, f) ==> Get(merged, f) == Get(mine, f))
            && (OneSided(disk, mine, base, f) ==> Get(merged, f) == Get(disk, f))
            && (!FieldChanged(mine, base, f) && !FieldChanged(disk, base, f) ==> Get(merged, f) == Get(base, f))
  {
    FieldIsMerged(ports, disk, mine, base, f);
  }

  lemma FieldIsMerged(ports: Ports, disk: Peer, mine: Peer, base: Peer, f: string)
    requires Decide(disk, mine, Some(base)).MergeBoth?
    requires f == "conflicts" ==> !MergeSecurityUnit(disk, mine, base).identityChanged
    ensures var sec := MergeSecurityUnit(disk, mine, base);
            Get(MergeRecord(ports, disk, mine, Some(base)), f)
            == if f !in FieldNames(disk, mine) then None
               else
                 var winner := if sec.mineIdentity then mine else disk;
                 MergedField(ports, disk, mine, base, sec.identityChanged, winner, f)
  {
    var sec := MergeSecurityUnit(disk, mine, base);
    assert sec.conflictKey.Some? ==> sec.identityChanged;
  }

  /** The elevation triple comes whole from one side, from the writer only if disk left it alone. */
  lemma ElevationMovesAsUnit(ports: Ports, disk: Peer, mine: Peer, base: Peer, f: string)
    requires Decide(disk, mine, Some(base)).MergeBoth? && f in ELEVATION
    ensures Get(MergeRecord(ports, disk, mine, Some(base)), f)
         == Get(if ElevationChanged(mine, base) && !ElevationChanged(disk, base) then mine else disk, f)
  {
    FieldIsMerged(ports, disk, mine, base, f);
  }

  /** A sighting or a version that each side only ever raised comes out as the higher of the two. */
  lemma RaisedNumbersTakeTheHigher(ports: Ports, disk: Peer, mine: Peer, base: Peer, f: string)
    requires Decide(disk, mine, Some(base)).MergeBoth? && (f == "lastSeen" || f == "v")
    requires 0 <= NumberIn(Get(base, f)) <= NumberIn(Get(disk, f)) && NumberIn(Get(base, f)) <= NumberIn(Get(mine, f))
    ensures var n := NumberIn(Get(MergeRecord(ports, disk, mine, Some(base)), f));
            NumberIn(Get(disk, f)) <= n && NumberIn(Get(mine, f)) <= n
            && (n == NumberIn(Get(disk, f)) || n == NumberIn(Get(mine, f)))
  {
    FieldIsMerged(ports, disk, mine, base, f);
  }

  /** Two rotations to different identities: disk's identity and posture stand, and the losing key joins the
      conflicts. */
  lemma RivalRotationKeepsDisk(ports: Ports, disk: Peer, mine: Peer, base: Peer)
    requires Decide(disk, mine, Some(base)).MergeBoth? && base.publicKey.Some?
    requires Rotated(disk, base) && Rotated(mine, base) && !SameCanonicalKey(disk.publicKey, mine.publicKey)
    ensures var merged := MergeRecord(ports, disk, mine, Some(base));
            && merged.publicKey == disk.publicKey && SealOf(merged) == SealOf(disk)
            && Get(merged, "conflicts") == ports.appendConflict(Get(disk, "conflicts"), mine.publicKey.value)
  {
    var fields := MergedFields(ports, disk, mine, base, true, disk);
    assert (if "conflicts" in fields then Some(fields["conflicts"]) else None) == Get(disk, "conflicts");
  }

  /** Where one side alone rotated, its conflicts stand: they were about the identity it chose. */
  lemma ConflictsFollowTheRotation(ports: Ports, disk: Peer, mine: Peer, base: Peer)
    requires Decide(disk, mine, Some(base)).MergeBoth? && base.publicKey.Some?
             && Rotated(disk, base) != Rotated(mine, base)
    ensures var rotated := if Rotated(mine, base) then mine else disk;
            var merged := MergeRecord(ports, disk, mine, Some(base));
            && Get(merged, "conflicts") == Get(rotated, "conflicts")
            && merged.publicKey == rotated.publicKey && SealOf(merged) == SealOf(rotated)
  {
    var winner := if Rotated(mine, base) then mine else disk;
    var fields := MergedFields(ports, disk, mine, base, true, winner);
    assert (if "conflicts" in fields then Some(fields["conflicts"]) else None) == Get(winner, "conflicts");
  }

  // --------------------------------------------------------------- the whole of a merge

  /** Unless both sides have moved, one record is taken whole: the one that moved, without an ancestor the higher
      revision's, and otherwise disk's. Its floors are raised to the other's. */
  lemma OneSideIsTakenWhole(ports: Ports, disk: Peer, mine: Peer, base: Option<Peer>)
    requires base.Some? ==> disk.rev == base.value.rev || mine.rev == base.value.rev
    ensures var merged := MergeRecord(ports, disk, mine, base);
            var taken := if base.Some? then (if mine.rev != base.value.rev then mine else disk)
                         else if disk.rev < mine.rev then mine else disk;
            && merged == taken.(bindingSeen := merged.bindingSeen, sealRequired := merged.sealRequired)
            && merged.bindingSeen
                 == (if disk.bindingSeen < mine.bindingSeen then mine.bindingSeen else disk.bindingSeen)
            && (merged.sealRequired <==> disk.sealRequired || mine.sealRequired)
  {
  }

  /** Both have moved: the revision and the floors are the higher ones, and the identity is disk's unless the writer
      alone rotated it. */
  lemma BothMovedMerge(ports: Ports, disk: Peer, mine: Peer, base: Peer)
    requires disk.rev != base.rev && mine.rev != base.rev
    ensures var merged := MergeRecord(ports, disk, mine, Some(base));
            && merged.rev == (if disk.rev < mine.rev then mine.rev else disk.rev)
            && merged.bindingSeen
                 == (if disk.bindingSeen < mine.bindingSeen then mine.bindingSeen else disk.bindingSeen)
            && (merged.sealRequired <==> disk.sealRequired || mine.sealRequired)
            && merged.publicKey == (if base.publicKey.Some? && Rotated(mine, base) && !Rotated(disk, base)
                                    then mine.publicKey else disk.publicKey)
  {
  }

  /** Two keys that parse to one. */
  predicate SameDer(a: Option<Key>, b: Option<Key>) {
    a.Some? && b.Some? && Parses(a) && (a.value.kind, a.value.id) == (b.value.kind, b.value.id)
  }

  /** What counts as a change since the baseline: another spelling of a key does not, and a key that does not parse
      always does. */
  lemma ChangedIs(p: Peer, base: Peer)
    ensures Rotated(p, base) <==> p.publicKey.Some? && !SameDer(p.publicKey, base.publicKey)
    ensures SameSeal(p, base)
       <==> && p.sealSeen == base.sealSeen
            && (p.sealPublicKey == base.sealPublicKey == None || SameDer(p.sealPublicKey, base.sealPublicKey))
            && (p.sealConflict == base.sealConflict || SameDer(p.sealConflict, base.sealConflict))
    ensures ElevationChanged(p, base)
       <==> || Get(p, "profile") != Get(base, "profile")
            || Get(p, "profileUntil") != Get(base, "profileUntil")
            || Get(p, "profileAfter") != Get(base, "profileAfter")
  {
    assert "profile" in ELEVATION && "profileUntil" in ELEVATION && "profileAfter" in ELEVATION;
  }

  /** The sealing key, its mark and its conflict move as one. Where neither identity is in doubt they are the writer's
      if it alone changed them and disk's otherwise, and two keys that disagree are a conflict; without a baseline
      identity they are disk's. */
  lemma SealMovesAsUnit(ports: Ports, disk: Peer, mine: Peer, base: Peer)
    requires disk.rev != base.rev && mine.rev != base.rev
    requires base.publicKey.Some? ==> OneIdentity(disk, mine, base)
    ensures var merged := MergeRecord(ports, disk, mine, Some(base));
            var (dCh, mCh) := (!SameSeal(disk, base), !SameSeal(mine, base));
            SealOf(merged) == if base.publicKey.None? then SealOf(disk)
                              else if mCh && !dCh then SealOf(mine)
                              else if mCh && dCh && KeysDisagree(disk, mine)
                              then SealUnit(disk.sealPublicKey, true, mine.sealPublicKey)
                              else SealOf(disk)
  {
  }

  /** Both have changed a field, and not alike. */
  predicate Contested(disk: Peer, mine: Peer, base: Peer, f: string) {
    FieldChanged(disk, base, f) && FieldChanged(mine, base, f) && Get(disk, f) != Get(mine, f)
  }

  /** Addresses are united, sightings and versions take the higher, and any other contested field is the committed one,
      a note or one this program does not know included. */
  lemma ContestedFieldIsDisks(ports: Ports, disk: Peer, mine: Peer, base: Peer, f: string)
    requires disk.rev != base.rev && mine.rev != base.rev && Contested(disk, mine, base, f)
    requires f !in ELEVATION && f != "conflicts"
    ensures var (got, n, m) := (Get(MergeRecord(ports, disk, mine, Some(base)), f),
                                NumberIn(Get(disk, f)), NumberIn(Get(mine, f)));
            if f == "addresses" then got == Some(ports.addresses(Get(disk, f), Get(mine, f)))
            else if f == "lastSeen" || f == "v" then
              got == if n <= 0 && m <= 0 then Get(disk, f) else Some(Number(if n < m then m else n))
            else got == Get(disk, f)
  {
    FieldIsMerged(ports, disk, mine, base, f);
  }

  /** A field both changed alike is as they changed it. */
  lemma AgreedFieldStands(ports: Ports, disk: Peer, mine: Peer, base: Peer, f: string)
    requires disk.rev != base.rev && mine.rev != base.rev && Get(disk, f) == Get(mine, f) && f != "conflicts"
    ensures Get(MergeRecord(ports, disk, mine, Some(base)), f) == Get(disk, f)
  {
    FieldIsMerged(ports, disk, mine, base, f);
  }

  /** The conflicts both sides came to list are united, unless both rotated to one identity; then disk's stand. */
  lemma ContestedConflictsUnite(ports: Ports, disk: Peer, mine: Peer, base: Peer)
    requires disk.rev != base.rev && mine.rev != base.rev
    requires base.publicKey.Some? ==> OneIdentity(disk, mine, base)
    requires FieldChanged(disk, base, "conflicts") && FieldChanged(mine, base, "conflicts")
    requires Get(disk, "conflicts").Some? || Get(mine, "conflicts").Some?
    ensures Get(MergeRecord(ports, disk, mine, Some(base)), "conflicts")
         == if base.publicKey.Some? && Rotated(disk, base) then Get(disk, "conflicts")
            else ports.conflicts(Get(disk, "conflicts"), Get(mine, "conflicts"))
  {
    if !MergeSecurityUnit(disk, mine, base).identityChanged {
      FieldIsMerged(ports, disk, mine, base, "conflicts");
    } else {
      var fields := MergedFields(ports, disk, mine, base, true, disk);
      assert (if "conflicts" in fields then Some(fields["conflicts"]) else None) == Get(disk, "conflicts");
    }
  }
}
