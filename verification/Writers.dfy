/** A writer that changed nothing, and two that changed nothing in common: what a locked write then does to the file. */
module Writers {
  import opened Wrappers
  import opened Keys
  import opened Tombstones
  import opened Generations
  import opened Peers
  import opened ReconcilePersist

  // ------------------------------------------------------------------- ranks, write by write

  /** What pruning leaves of a rank. */
  function Pruned(r: Rank, applied: nat): Rank { if r.tier == 1 && r.weight <= applied then NOTHING else r }

  lemma {:induction false} PruneTop(ts: seq<Tombstone>, applied: nat, id: KeyId)
    requires DistinctIds(ts)
    ensures Top(Prune(ts, applied), id) == Pruned(Top(ts, id), applied)
  {
    if ts != [] {
      PruneTop(ts[1..], applied, id);
      NoneBeyond(ts, id);
    }
  }

  lemma {:induction false} PruneDistinct(ts: seq<Tombstone>, applied: nat)
    requires DistinctIds(ts)
    ensures DistinctIds(Prune(ts, applied))
  {
    if ts != [] {
      PruneDistinct(ts[1..], applied);
      var tail := Prune(ts[1..], applied);
      forall i | 0 <= i < |tail| ensures tail[i].id != ts[0].id {
        assert tail[i] in ts[1..];
      }
    }
  }

  lemma {:induction false} TopAt(ts: seq<Tombstone>, i: nat)
    requires DistinctIds(ts) && i < |ts|
    ensures Top(ts, ts[i].id) == RankOf(ts[i])
  {
    if i == 0 {
      NoneBeyond(ts, ts[0].id);
    } else {
      TopAt(ts[1..], i - 1);
      assert ts[0].id != ts[i].id;
    }
  }

  lemma JoinedTop(disk: GenFile, base: GenFile, cur: GenFile, id: KeyId)
    ensures var f := Joined(disk, base, cur);
            && DistinctIds(f.tombstones)
            && Top(f.tombstones, id) == Pruned(Join(Top(disk.tombstones, id), Top(cur.tombstones, id)), f.applied)
  {
    MergeIsKeywiseJoin(disk.tombstones, cur.tombstones, id);
    PruneTop(Merge(disk.tombstones, cur.tombstones), Joined(disk, base, cur).applied, id);
    PruneDistinct(Merge(disk.tombstones, cur.tombstones), Joined(disk, base, cur).applied);
  }

  /** An allocating write leaves every rank as it is, except that a provisional one gets a number above all recorded. */
  lemma FinalTop(f: GenFile, id: KeyId)
    requires InRange(f) && HasRoom(f) && DistinctIds(f.tombstones)
    ensures DistinctIds(Finalize(f).tombstones)
    ensures var (was, now) := (Top(f.tombstones, id), Top(Finalize(f).tombstones, id));
            if was.tier == 2 then now.tier == 1 && Base(f) < now.weight <= Finalize(f).routeGen else now == was
  {
    FinalizeIsWellAllocated(f);
    var r := Finalize(f);
    SamePlaces(f, r);
    if i :| 0 <= i < |f.tombstones| && f.tombstones[i].id == id {
      TopAt(f.tombstones, i);
      TopAt(r.tombstones, i);
      assert StampedAt(f, r, i);
    } else {
      AbsentHasNoRank(f.tombstones, id);
      AbsentHasNoRank(r.tombstones, id);
    }
  }

  lemma SamePlaces(f: GenFile, r: GenFile)
    requires |r.tombstones| == |f.tombstones| && forall i :: 0 <= i < |f.tombstones| ==> StampedAt(f, r, i)
    ensures forall i :: 0 <= i < |f.tombstones| ==> r.tombstones[i].id == f.tombstones[i].id
    ensures DistinctIds(f.tombstones) ==> DistinctIds(r.tombstones)
  {
    forall i | 0 <= i < |f.tombstones| ensures r.tombstones[i].id == f.tombstones[i].id { assert StampedAt(f, r, i); }
  }

  // --------------------------------------------------------------------- idle writer

  /** Disk has only gone on from what the writer read: no floor fell on a name both hold. */
  ghost predicate FloorsSince(disk: Admitted, base: Admitted) {
    forall n :: n in disk && n in base ==> FloorsAbove(disk[n], base[n])
  }

  /** Disk holds at least as strong a retirement of this identity as the writer read, or none because it consumed
      that. */
  predicate StillAnswered(disk: GenFile, base: GenFile, id: KeyId) {
    var (d, b) := (Top(disk.tombstones, id), Top(base.tombstones, id));
    !Below(d, b) || (d == NOTHING && Pruned(b, disk.applied) == NOTHING)
  }

  predicate Unconsumed(f: GenFile) { forall t :: t in f.tombstones ==> !Consumed(t, f.applied) }

  ghost predicate GensSince(disk: GenFile, base: GenFile) {
    && base.routeGen <= disk.routeGen && base.applied <= disk.applied
    && DistinctIds(disk.tombstones) && Settled(disk.tombstones) && Unconsumed(disk)
    && forall id :: StillAnswered(disk, base, id)
  }

  /** A writer that changed nothing writes back what is on disk, exactly when disk has only gone on from what it
      read. */
  lemma IdleWriterLeavesDiskIff(ports: Ports, disk: State, base: State)
    requires InRange(Joined(disk.gens, base.gens, base.gens)) && HasRoom(Joined(disk.gens, base.gens, base.gens))
    ensures Reconciled(ports, disk, base, base) == disk
       <==> FloorsSince(disk.admitted, base.admitted) && GensSince(disk.gens, base.gens)
  {
    assert MergedKeys(disk.keys, base.keys, base.keys) == disk.keys;
    IdlePeersIff(ports, disk.admitted, base.admitted);
    if GensSince(disk.gens, base.gens) { IdleGens(disk.gens, base.gens); }
    if Reconcile(disk.gens, base.gens, base.gens) == disk.gens { IdleOnlySince(disk.gens, base.gens); }
  }

  lemma IdlePeersIff(ports: Ports, disk: Admitted, base: Admitted)
    ensures MergeAdmitted(ports, disk, base, base) == disk <==> FloorsSince(disk, base)
  {
    forall n ensures n in disk && n in base ==>
        (Lookup(MergeAdmitted(ports, disk, base, base), n) == Some(disk[n]) <==> FloorsAbove(disk[n], base[n]))
      ensures !(n in disk && n in base) ==> Lookup(MergeAdmitted(ports, disk, base, base), n) == Lookup(disk, n)
    {
      AdmittedAt(ports, disk, base, base, n);
    }
    if FloorsSince(disk, base) { EqualByLookup(MergeAdmitted(ports, disk, base, base), disk); }
  }

  lemma IdleGens(disk: GenFile, base: GenFile)
    requires GensSince(disk, base)
    ensures Reconcile(disk, base, base) == disk
  {
    var extra := IdleMerge(disk, base);
    PruneConcat(disk.tombstones, extra, disk.applied);
    PruneNothing(disk.tombstones, disk.applied);
    PruneAll(extra, disk.applied);
    assert disk.tombstones + [] == disk.tombstones;
    assert Joined(disk, base, base) == disk;
    NonePending(disk.tombstones, 0);
  }

  /** What the merge adds behind disk's own tombstones is consumed. */
  lemma IdleMerge(disk: GenFile, base: GenFile) returns (extra: seq<Tombstone>)
    requires GensSince(disk, base)
    ensures Merge(disk.tombstones, base.tombstones) == disk.tombstones + extra
    ensures forall t :: t in extra ==> Consumed(t, disk.applied)
  {
    var merged := Merge(disk.tombstones, base.tombstones);
    assert [] + disk.tombstones == disk.tombstones;
    AbsorbNewAll([], disk.tombstones);
    AllKeepPlaces(disk.tombstones, base.tombstones);
    forall i | 0 <= i < |merged| ensures MergedPlace(disk, merged, i) { PlaceAfterMerge(disk, base, i); }
    extra := SplitByPlace(disk, merged);
  }

  lemma SplitByPlace(disk: GenFile, merged: seq<Tombstone>) returns (extra: seq<Tombstone>)
    requires |disk.tombstones| <= |merged|
    requires forall i :: 0 <= i < |merged| ==> MergedPlace(disk, merged, i)
    ensures merged == disk.tombstones + extra
    ensures forall t :: t in extra ==> Consumed(t, disk.applied)
  {
    extra := merged[|disk.tombstones|..];
    forall i | 0 <= i < |merged| ensures merged[i] == (disk.tombstones + extra)[i] {
      assert MergedPlace(disk, merged, i);
    }
    forall j | 0 <= j < |extra| ensures Consumed(extra[j], disk.applied) {
      assert MergedPlace(disk, merged, |disk.tombstones| + j);
    }
  }

  /** A merged tombstone is disk's own in its place, or a further one already consumed. */
  predicate MergedPlace(disk: GenFile, merged: seq<Tombstone>, i: nat)
    requires i < |merged|
  {
    if i < |disk.tombstones| then merged[i] == disk.tombstones[i] else Consumed(merged[i], disk.applied)
  }

  lemma PlaceAfterMerge(disk: GenFile, base: GenFile, i: nat)
    requires GensSince(disk, base) && i < |Merge(disk.tombstones, base.tombstones)|
    requires KeepsPlaces(disk.tombstones, Merge(disk.tombstones, base.tombstones))
    ensures MergedPlace(disk, Merge(disk.tombstones, base.tombstones), i)
  {
    var merged := Merge(disk.tombstones, base.tombstones);
    var id := merged[i].id;
    MergeIsKeywiseJoin(disk.tombstones, base.tombstones, id);
    TopAt(merged, i);
    assert StillAnswered(disk, base, id);
    if i < |disk.tombstones| {
      assert Raised(disk.tombstones[i], merged[i]);
      TopAt(disk.tombstones, i);
      assert disk.tombstones[i] in disk.tombstones;
    } else {
      forall t | t in disk.tombstones ensures t.id != id {
        var k :| 0 <= k < |disk.tombstones| && disk.tombstones[k] == t;
        assert Raised(disk.tombstones[k], merged[k]);
      }
      AbsentHasNoRank(disk.tombstones, id);
    }
  }

  /** In the same place, for the same identity: the same tombstone or a stronger one. */
  predicate Raised(was: Tombstone, now: Tombstone) {
    now.id == was.id && (now == was || Below(RankOf(was), RankOf(now)) || now.gen.Provisional?)
  }

  ghost predicate KeepsPlaces(acc: seq<Tombstone>, after: seq<Tombstone>) {
    |acc| <= |after| && forall i :: 0 <= i < |acc| ==> Raised(acc[i], after[i])
  }

  lemma {:induction false} AbsorbKeepsPlaces(acc: seq<Tombstone>, t: Tombstone)
    ensures KeepsPlaces(acc, Absorb(acc, t))
  {
    if acc != [] && acc[0].id != t.id { AbsorbKeepsPlaces(acc[1..], t); }
  }

  lemma {:induction false} AllKeepPlaces(acc: seq<Tombstone>, ts: seq<Tombstone>)
    ensures KeepsPlaces(acc, AbsorbAll(acc, ts))
    decreases |ts|
  {
    if ts != [] {
      var next := Absorb(acc, ts[0]);
      AbsorbKeepsPlaces(acc, ts[0]);
      AllKeepPlaces(next, ts[1..]);
      var after := AbsorbAll(next, ts[1..]);
      forall i | 0 <= i < |acc| ensures Raised(acc[i], after[i]) {
        assert Raised(acc[i], next[i]) && Raised(next[i], after[i]);
      }
    }
  }

  lemma {:induction false} NonePending(ts: seq<Tombstone>, from: nat)
    requires Settled(ts) && from <= |ts|
    ensures SortedPending(ts, from) == []
    decreases |ts| - from
  {
    if from < |ts| {
      assert ts[from] in ts;
      NonePending(ts, from + 1);
    }
  }

  lemma {:induction false} PruneNothing(ts: seq<Tombstone>, applied: nat)
    requires forall t :: t in ts ==> !Consumed(t, applied)
    ensures Prune(ts, applied) == ts
  {
    if ts != [] {
      assert ts[0] in ts;
      PruneNothing(ts[1..], applied);
    }
  }

  lemma {:induction false} PruneAll(ts: seq<Tombstone>, applied: nat)
    requires forall t :: t in ts ==> Consumed(t, applied)
    ensures Prune(ts, applied) == []
  {
    if ts != [] {
      assert ts[0] in ts;
      PruneAll(ts[1..], applied);
    }
  }

  lemma {:induction false} PruneConcat(a: seq<Tombstone>, b: seq<Tombstone>, applied: nat)
    ensures Prune(a + b, applied) == Prune(a, applied) + Prune(b, applied)
  {
    if a == [] {
      assert a + b == b;
    } else {
      assert (a + b)[1..] == a[1..] + b;
      PruneConcat(a[1..], b, applied);
    }
  }

  lemma {:induction false} AbsorbNewAll(acc: seq<Tombstone>, ts: seq<Tombstone>)
    requires DistinctIds(acc + ts)
    ensures AbsorbAll(acc, ts) == acc + ts
    decreases |ts|
  {
    if ts == [] {
      assert acc + ts == acc;
    } else {
      assert (acc + ts)[|acc|] == ts[0];
      forall i | 0 <= i < |acc| ensures acc[i].id != ts[0].id { assert (acc + ts)[i] == acc[i]; }
      AbsorbNew(acc, ts[0]);
      assert (acc + [ts[0]]) + ts[1..] == acc + ts;
      AbsorbNewAll(acc + [ts[0]], ts[1..]);
    }
  }

  lemma IdleOnlySince(disk: GenFile, base: GenFile)
    requires InRange(Joined(disk, base, base)) && HasRoom(Joined(disk, base, base))
    requires Reconcile(disk, base, base) == disk
    ensures GensSince(disk, base)
  {
    var f := Joined(disk, base, base);
    FinalizeFacts(f);
    BaseBounds(f);
    forall t | t in disk.tombstones ensures !Consumed(t, disk.applied) {
      var u :| WrittenFrom(f, u, t);
    }
    forall id ensures StillAnswered(disk, base, id) {
      JoinedTop(disk, base, base, id);
      FinalTop(f, id);
    }
    assert DistinctIds(disk.tombstones) by {
      var any := KeyId([]);
      JoinedTop(disk, base, base, any);
      FinalTop(f, any);
    }
  }

  // ------------------------------------------------------------- writers that miss each other

  /** This writer neither edited, added nor forgot the name. */
  predicate Untouched(base: Admitted, mine: Admitted, n: string) { Lookup(mine, n) == Lookup(base, n) }

  /** Two writers, each with its own baseline, that touched no key and no peer in common. */
  ghost predicate Disjoint(baseA: State, a: State, baseB: State, b: State) {
    && (forall n :: Untouched(baseA.admitted, a.admitted, n) || Untouched(baseB.admitted, b.admitted, n))
    && (forall k :: At(a.keys, k) == At(baseA.keys, k) || At(b.keys, k) == At(baseB.keys, k))
  }

  /** One writer adds anew, with lower floors, a name that is gone from disk and that the other still holds as it read
      it. */
  predicate ReaddedBelow(disk: Admitted, base: Admitted, mine: Admitted, other: Admitted, n: string) {
    n !in disk && n !in base && n in mine && n in other && !FloorsAbove(mine[n], other[n])
  }

  ghost predicate NoneReaddedBelow(disk: Admitted, base: Admitted, mine: Admitted, other: Admitted) {
    forall n :: !ReaddedBelow(disk, base, mine, other, n)
  }

  /** They commute: in either order the same keys, the same peers and the same consumption mark are on disk afterwards;
      the peers on one exact condition. */
  lemma DisjointWritersCommuteIff(ports: Ports, disk: State, baseA: State, a: State, baseB: State, b: State)
    requires Disjoint(baseA, a, baseB, b)
    ensures var ab := Reconciled(ports, Reconciled(ports, disk, baseA, a), baseB, b);
            var ba := Reconciled(ports, Reconciled(ports, disk, baseB, b), baseA, a);
            && ab.keys == ba.keys && ab.gens.applied == ba.gens.applied
            && (ab.admitted == ba.admitted
                <==> NoneReaddedBelow(disk.admitted, baseA.admitted, a.admitted, baseB.admitted)
                     && NoneReaddedBelow(disk.admitted, baseB.admitted, b.admitted, baseA.admitted))
  {
    AppliedCommutes(disk.gens, baseA.gens, a.gens, baseB.gens, b.gens);
    PeersCommuteIff(ports, disk.admitted, baseA.admitted, a.admitted, baseB.admitted, b.admitted);
    KeysCommute(disk.keys, baseA.keys, a.keys, baseB.keys, b.keys);
  }

  lemma AppliedCommutes(disk: GenFile, baseA: GenFile, a: GenFile, baseB: GenFile, b: GenFile)
    ensures Reconcile(Reconcile(disk, baseA, a), baseB, b).applied
            == Reconcile(Reconcile(disk, baseB, b), baseA, a).applied
  {
  }

  lemma PeersCommuteIff(ports: Ports, disk: Admitted, baseA: Admitted, a: Admitted, baseB: Admitted, b: Admitted)
    requires forall n :: Untouched(baseA, a, n) || Untouched(baseB, b, n)
    ensures MergeAdmitted(ports, MergeAdmitted(ports, disk, baseA, a), baseB, b)
            == MergeAdmitted(ports, MergeAdmitted(ports, disk, baseB, b), baseA, a)
       <==> NoneReaddedBelow(disk, baseA, a, baseB) && NoneReaddedBelow(disk, baseB, b, baseA)
  {
    var ab := MergeAdmitted(ports, MergeAdmitted(ports, disk, baseA, a), baseB, b);
    var ba := MergeAdmitted(ports, MergeAdmitted(ports, disk, baseB, b), baseA, a);
    forall n
      ensures Lookup(ab, n) == Lookup(ba, n)
              <==> !ReaddedBelow(disk, baseA, a, baseB, n) && !ReaddedBelow(disk, baseB, b, baseA, n)
    {
      if Untouched(baseB, b, n) {
        OneTouches(ports, disk, baseA, a, baseB, b, n);
      } else {
        assert Untouched(baseA, a, n);
        OneTouches(ports, disk, baseB, b, baseA, a, n);
      }
    }
    if forall n :: Lookup(ab, n) == Lookup(ba, n) { EqualByLookup(ab, ba); }
  }

  lemma KeysCommute(disk: map<string, Value>, baseA: map<string, Value>, a: map<string, Value>,
                    baseB: map<string, Value>, b: map<string, Value>)
    requires forall k :: At(a, k) == At(baseA, k) || At(b, k) == At(baseB, k)
    ensures MergedKeys(MergedKeys(disk, baseA, a), baseB, b) == MergedKeys(MergedKeys(disk, baseB, b), baseA, a)
  {
    var ab, ba := MergedKeys(MergedKeys(disk, baseA, a), baseB, b), MergedKeys(MergedKeys(disk, baseB, b), baseA, a);
    forall k ensures At(ab, k) == At(ba, k) {
      assert At(a, k) == At(baseA, k) || At(b, k) == At(baseB, k);
      MergedAt(disk, baseA, a, k);
      MergedAt(disk, baseB, b, k);
      MergedAt(MergedKeys(disk, baseA, a), baseB, b, k);
      MergedAt(MergedKeys(disk, baseB, b), baseA, a, k);
    }
    EqualByKey(ab, ba);
  }

  lemma MergedAt(disk: map<string, Value>, base: map<string, Value>, mine: map<string, Value>, k: string)
    ensures At(MergedKeys(disk, base, mine), k) == if At(mine, k) == At(base, k) then At(disk, k) else At(mine, k)
  {
    KeysMergeThreeWay(disk, base, mine, k);
  }

  lemma EqualByKey(a: map<string, Value>, b: map<string, Value>)
    requires forall k :: At(a, k) == At(b, k)
    ensures a == b
  {
    forall k ensures k in a <==> k in b { assert At(a, k) == At(b, k); }
    forall k | k in a ensures a[k] == b[k] { assert At(a, k) == At(b, k); }
  }

  /** The second writer leaves the name alone: only its floors matter, and only to a name added anew. */
  lemma OneTouches(ports: Ports, disk: Admitted, baseA: Admitted, a: Admitted, baseB: Admitted, b: Admitted, n: string)
    requires Untouched(baseB, b, n)
    ensures Lookup(MergeAdmitted(ports, MergeAdmitted(ports, disk, baseA, a), baseB, b), n)
            == Lookup(MergeAdmitted(ports, MergeAdmitted(ports, disk, baseB, b), baseA, a), n)
       <==> !ReaddedBelow(disk, baseA, a, baseB, n)
    ensures !ReaddedBelow(disk, baseB, b, baseA, n)
  {
    var onA, onB := MergeAdmitted(ports, disk, baseA, a), MergeAdmitted(ports, disk, baseB, b);
    AdmittedAt(ports, disk, baseA, a, n);
    AdmittedAt(ports, disk, baseB, b, n);
    AdmittedAt(ports, onA, baseB, b, n);
    AdmittedAt(ports, onB, baseA, a, n);
    if n in disk && n in a && n in baseB {
      FloorsDoNotDecide(ports, disk[n], a[n], Lookup(baseA, n), baseB[n]);
    }
  }

  /** Raising disk's floors before a merge or after it is the same. */
  lemma FloorsDoNotDecide(ports: Ports, disk: Peer, mine: Peer, base: Option<Peer>, q: Peer)
    ensures Floored(MergeRecord(ports, disk, mine, base), MergeRecord(ports, disk, mine, base), q)
         == MergeRecord(ports, Floored(disk, disk, q), mine, base)
  {
    if Decide(disk, mine, base).MergeBoth? {
      ConcurrentIgnoresFloors(ports, disk, Floored(disk, disk, q), mine, base.value);
    }
  }

  lemma ConcurrentIgnoresFloors(ports: Ports, disk: Peer, d: Peer, mine: Peer, base: Peer)
    requires d == disk.(bindingSeen := d.bindingSeen, sealRequired := d.sealRequired)
    ensures MergeConcurrent(ports, d, mine, base)
         == MergeConcurrent(ports, disk, mine, base).(bindingSeen := MaxNat(d.bindingSeen, mine.bindingSeen),
                                                       sealRequired := d.sealRequired || mine.sealRequired)
  {
    var sec := MergeSecurityUnit(disk, mine, base);
    assert MergeSecurityUnit(d, mine, base) == sec;
    FieldsIgnoreFloors(ports, disk, d, mine, base, sec.identityChanged, sec.mineIdentity);
  }

  lemma FieldsIgnoreFloors(ports: Ports, disk: Peer, d: Peer, mine: Peer, base: Peer, identityChanged: bool,
                           toMine: bool)
    requires d.fields == disk.fields
    ensures MergedFields(ports, d, mine, base, identityChanged, if toMine then mine else d)
         == MergedFields(ports, disk, mine, base, identityChanged, if toMine then mine else disk)
  {
    var (w, v) := (if toMine then mine else d, if toMine then mine else disk);
    assert ElevationChanged(d, base) == ElevationChanged(disk, base) by {
      assert forall f :: FieldChanged(d, base, f) == FieldChanged(disk, base, f);
    }
    forall f
      ensures MergedField(ports, d, mine, base, identityChanged, w, f)
              == MergedField(ports, disk, mine, base, identityChanged, v, f)
    {
      assert Get(d, f) == Get(disk, f) && Get(w, f) == Get(v, f);
    }
  }

  /** A failing input: P was forgotten while B had read it with a raised floor, and A has just admitted it anew. */
  lemma ReaddingDoesNotCommute(ports: Ports, n: string, raised: Peer, anew: Peer)
    requires raised.sealRequired && !anew.sealRequired
    ensures var (none, held, added) := (map[], map[n := raised], map[n := anew]);
            && (forall m :: Untouched(none, added, m) || Untouched(held, held, m))
            && MergeAdmitted(ports, MergeAdmitted(ports, none, none, added), held, held)
               != MergeAdmitted(ports, MergeAdmitted(ports, none, held, held), none, added)
  {
    assert ReaddedBelow(map[], map[], map[n := anew], map[n := raised], n);
    PeersCommuteIff(ports, map[], map[], map[n := anew], map[n := raised], map[n := raised]);
  }

  // --------------------------------------------------------------- retirements, either way round

  /** A file as writes leave it: every tombstone numbered above the consumption mark, or from before numbers. */
  predicate Sound(f: GenFile) {
    && Settled(f.tombstones) && f.applied <= f.routeGen <= CEILING
    && forall t :: t in f.tombstones && t.gen.Finalized? ==> f.applied < t.gen.n <= f.routeGen
  }

  /** What a writer holds is never ahead of the file. */
  predicate Behind(disk: GenFile, base: GenFile, cur: GenFile) {
    && base.routeGen <= disk.routeGen && base.applied <= disk.applied
    && cur.routeGen <= disk.routeGen && cur.applied <= disk.applied
    && forall t :: t in cur.tombstones ==> GenOf(t) <= disk.routeGen
  }

  lemma BehindGrows(disk: GenFile, next: GenFile, base: GenFile, cur: GenFile)
    requires Behind(disk, base, cur) && disk.routeGen <= next.routeGen && disk.applied == next.applied
    ensures Behind(next, base, cur)
  {}

  lemma JoinedInRange(disk: GenFile, base: GenFile, cur: GenFile)
    requires Sound(disk) && Behind(disk, base, cur)
    ensures var f := Joined(disk, base, cur);
            && InRange(f) && f.routeGen == disk.routeGen && f.applied == disk.applied
            && forall t :: t in f.tombstones ==> GenOf(t) <= disk.routeGen
  {
    var f := Joined(disk, base, cur);
    forall t | t in f.tombstones ensures GenOf(t) <= disk.routeGen {
      MergeIsKeywiseJoin(disk.tombstones, cur.tombstones, t.id);
    }
  }

  /** What one write makes of an identity's rank. */
  predicate Wrote(routeGen: nat, applied: nat, joined: Rank, now: Rank) {
    if joined.tier == 2 then now.tier == 1 && routeGen < now.weight else now == Pruned(joined, applied)
  }

  lemma WriteTop(disk: GenFile, base: GenFile, cur: GenFile, id: KeyId)
    requires Sound(disk) && Behind(disk, base, cur) && HasRoom(Joined(disk, base, cur))
    ensures var next := Reconcile(disk, base, cur);
            && disk.routeGen <= next.routeGen && next.applied == disk.applied
            && Wrote(disk.routeGen, disk.applied, Join(Top(disk.tombstones, id), Top(cur.tombstones, id)),
                     Top(next.tombstones, id))
  {
    JoinedInRange(disk, base, cur);
    JoinedTop(disk, base, cur, id);
    FinalTop(Joined(disk, base, cur), id);
    BaseBounds(Joined(disk, base, cur));
    FinalizeFacts(Joined(disk, base, cur));
  }

  lemma WriteIsSound(disk: GenFile, base: GenFile, cur: GenFile)
    requires Sound(disk) && Behind(disk, base, cur) && HasRoom(Joined(disk, base, cur))
    ensures Sound(Reconcile(disk, base, cur))
  {
    var f := Joined(disk, base, cur);
    JoinedInRange(disk, base, cur);
    BaseBounds(f);
    FinalizeFacts(f);
    forall m | m in Finalize(f).tombstones && m.gen.Finalized? ensures disk.applied < m.gen.n <= Finalize(f).routeGen {
      var t :| WrittenFrom(f, t, m);
    }
  }

  /** One writer holds a retirement the daemon has consumed, the other one from before numbers, and disk neither. */
  predicate LegacyClash(disk: Rank, a: Rank, b: Rank, applied: nat) {
    && disk.tier <= 0
    && ((Pruned(a, applied) != a && b.tier == 0) || (Pruned(b, applied) != b && a.tier == 0))
  }

  /** Either way round, an identity that one of them retires is answered by a new number; of any other, the same legacy
      time or number stands or none does, on one exact condition: no consumed number of one meets a legacy tombstone of
      the other. */
  lemma RetirementsCommuteIff(disk: GenFile, baseA: GenFile, a: GenFile, baseB: GenFile, b: GenFile, id: KeyId)
    requires Sound(disk) && Behind(disk, baseA, a) && Behind(disk, baseB, b)
    requires HasRoom(Joined(disk, baseA, a)) && HasRoom(Joined(Reconcile(disk, baseA, a), baseB, b))
    requires HasRoom(Joined(disk, baseB, b)) && HasRoom(Joined(Reconcile(disk, baseB, b), baseA, a))
    ensures var ab := Top(Reconcile(Reconcile(disk, baseA, a), baseB, b).tombstones, id);
            var ba := Top(Reconcile(Reconcile(disk, baseB, b), baseA, a).tombstones, id);
            var (d, ra, rb) := (Top(disk.tombstones, id), Top(a.tombstones, id), Top(b.tombstones, id));
            if ra.tier == 2 || rb.tier == 2 then
              ab.tier == 1 && ba.tier == 1 && disk.routeGen < ab.weight && disk.routeGen < ba.weight
            else if LegacyClash(d, ra, rb, disk.applied) then (ab == NOTHING) != (ba == NOTHING)
            else ab == ba == Pruned(Join(Join(d, ra), rb), disk.applied)
  {
    var (d, ra, rb) := (Top(disk.tombstones, id), Top(a.tombstones, id), Top(b.tombstones, id));
    var onA, ab := WriteTwice(disk, baseA, a, baseB, b, id);
    var onB, ba := WriteTwice(disk, baseB, b, baseA, a, id);
    SettledRank(disk, id);
    WeakRank(a.tombstones, disk.routeGen, id);
    WeakRank(b.tombstones, disk.routeGen, id);
    RanksCommuteIff(disk.routeGen, disk.applied, d, ra, rb, onA, onB, ab, ba);
  }

  lemma WriteTwice(disk: GenFile, baseA: GenFile, a: GenFile, baseB: GenFile, b: GenFile, id: KeyId)
    returns (once: Rank, twice: Rank)
    requires Sound(disk) && Behind(disk, baseA, a) && Behind(disk, baseB, b)
    requires HasRoom(Joined(disk, baseA, a)) && HasRoom(Joined(Reconcile(disk, baseA, a), baseB, b))
    ensures twice == Top(Reconcile(Reconcile(disk, baseA, a), baseB, b).tombstones, id)
    ensures Wrote(disk.routeGen, disk.applied, Join(Top(disk.tombstones, id), Top(a.tombstones, id)), once)
    ensures Wrote(disk.routeGen, disk.applied, Join(once, Top(b.tombstones, id)), twice)
  {
    var next := Reconcile(disk, baseA, a);
    WriteTop(disk, baseA, a, id);
    WriteIsSound(disk, baseA, a);
    BehindGrows(disk, next, baseB, b);
    WriteTop(next, baseB, b, id);
    once, twice := Top(next.tombstones, id), Top(Reconcile(next, baseB, b).tombstones, id);
  }

  /** A rank a file or a process may hold for one identity. */
  predicate IsRank(r: Rank, routeGen: nat) {
    && -1 <= r.tier <= 2 && (r.tier == 1 ==> 0 <= r.weight <= routeGen)
    && (r.tier == -1 ==> r == NOTHING) && (r.tier == 2 ==> r.weight == 0)
  }

  lemma RanksCommuteIff(routeGen: nat, applied: nat, d: Rank, a: Rank, b: Rank, onA: Rank, onB: Rank, ab: Rank,
                        ba: Rank)
    requires IsRank(d, routeGen) && d.tier <= 1 && (d.tier == 1 ==> applied < d.weight)
    requires IsRank(a, routeGen) && IsRank(b, routeGen) && applied <= routeGen
    requires Wrote(routeGen, applied, Join(d, a), onA) && Wrote(routeGen, applied, Join(onA, b), ab)
    requires Wrote(routeGen, applied, Join(d, b), onB) && Wrote(routeGen, applied, Join(onB, a), ba)
    ensures if a.tier == 2 || b.tier == 2 then
              ab.tier == 1 && ba.tier == 1 && routeGen < ab.weight && routeGen < ba.weight
            else if LegacyClash(d, a, b, applied) then (ab == NOTHING) != (ba == NOTHING)
            else ab == ba == Pruned(Join(Join(d, a), b), applied)
  {
  }

  lemma SettledRank(f: GenFile, id: KeyId)
    requires Sound(f)
    ensures var r := Top(f.tombstones, id);
            IsRank(r, f.routeGen) && r.tier <= 1 && (r.tier == 1 ==> f.applied < r.weight)
  {
    TopIsHeld(f.tombstones, id);
  }

  lemma WeakRank(ts: seq<Tombstone>, routeGen: nat, id: KeyId)
    requires forall t :: t in ts ==> GenOf(t) <= routeGen
    ensures IsRank(Top(ts, id), routeGen)
  {
    TopIsHeld(ts, id);
  }
}
