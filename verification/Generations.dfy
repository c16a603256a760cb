/** Every way a writer touches the generation counters and tombstones of directory.json. */
module Generations {
  import opened Keys
  import opened Tombstones

  /** What the directory constructor makes of a file: counters floored by the evidence, consumed dropped. */
  function Load(f: GenFile): GenFile {
    var applied := Clamp(f.applied);
    GenFile(Clamp(Max(Max(f.routeGen, f.applied), MaxGen(f.tombstones))), applied, Prune(f.tombstones, applied))
  }

  /** `tombstone()`: a fresh retirement is provisional, whatever was held for that identity. */
  function Mint(ts: seq<Tombstone>, id: KeyId, at: int, reason: Reason): seq<Tombstone> {
    if ts == [] then [Tombstone(id, at, reason, Provisional)]
    else if ts[0].id == id then [Tombstone(id, at, reason, Provisional)] + ts[1..]
    else [ts[0]] + Mint(ts[1..], id, at, reason)
  }

  datatype Retire = Retire(id: KeyId, at: int, reason: Reason)

  function MintAll(ts: seq<Tombstone>, rs: seq<Retire>): seq<Tombstone>
    decreases |rs|
  {
    if rs == [] then ts else MintAll(Mint(ts, rs[0].id, rs[0].at, rs[0].reason), rs[1..])
  }

  /** The state a CLI write is about to finalize: counters at their maximum, tombstones united. */
  function Joined(disk: GenFile, baseline: GenFile, current: GenFile): GenFile {
    var applied := Max(Max(disk.applied, current.applied), baseline.applied);
    GenFile(Max(Max(disk.routeGen, current.routeGen), baseline.routeGen), applied,
            Prune(Merge(disk.tombstones, current.tombstones), applied))
  }

  /** The counters and tombstones of `reconcilePersist`. */
  function Reconcile(disk: GenFile, baseline: GenFile, current: GenFile): GenFile {
    Finalize(Joined(disk, baseline, current))
  }

  /** `adopt`: take over another writer's state without letting a counter fall. */
  function Adopt(mem: GenFile, incoming: GenFile): GenFile {
    var applied := Clamp(Max(mem.applied, incoming.applied));
    GenFile(Clamp(Max(Max(mem.routeGen, incoming.routeGen), MaxGen(incoming.tombstones))), applied,
            Prune(incoming.tombstones, applied))
  }

  /** `markTombstonesApplied`. */
  function MarkApplied(mem: GenFile, through: nat): GenFile {
    var applied := Max(mem.applied, Clamp(through));
    mem.(applied := applied, tombstones := Prune(mem.tombstones, applied))
  }

  predicate Holds(ts: seq<Tombstone>, id: KeyId) { exists t :: t in ts && t.id == id }

  /** What boot may drop: a processed identity's tombstone that is legacy or within the processed generation. */
  predicate Consumable(t: Tombstone, processed: seq<Tombstone>, through: nat) {
    Holds(processed, t.id) && (t.gen.Finalized? ==> t.gen.n <= through)
  }

  function Keep(ts: seq<Tombstone>, processed: seq<Tombstone>, through: nat): (r: seq<Tombstone>)
    ensures forall t :: t in r <==> t in ts && !Consumable(t, processed, through)
  {
    if ts == [] then []
    else if Consumable(ts[0], processed, through) then Keep(ts[1..], processed, through)
    else [ts[0]] + Keep(ts[1..], processed, through)
  }

  /** Boot's consuming write. */
  function Consume(disk: GenFile, processed: seq<Tombstone>, through: nat): GenFile {
    disk.(applied := Max(disk.applied, through), tombstones := Keep(disk.tombstones, processed, through))
  }

  // -------------------------------------------------------------------- membership

  lemma {:induction false} MintMembers(ts: seq<Tombstone>, id: KeyId, at: int, reason: Reason)
    ensures forall t :: t in Mint(ts, id, at, reason) ==> t in ts || t.gen.Provisional?
    ensures forall t :: t in ts && t.id != id ==> t in Mint(ts, id, at, reason)
    ensures Tombstone(id, at, reason, Provisional) in Mint(ts, id, at, reason)
  {
    if ts != [] && ts[0].id != id { MintMembers(ts[1..], id, at, reason); }
  }

  lemma {:induction false} MintAllAddsProvisionals(ts: seq<Tombstone>, rs: seq<Retire>)
    ensures forall t :: t in MintAll(ts, rs) ==> t in ts || t.gen.Provisional?
    decreases |rs|
  {
    if rs != [] {
      MintMembers(ts, rs[0].id, rs[0].at, rs[0].reason);
      MintAllAddsProvisionals(Mint(ts, rs[0].id, rs[0].at, rs[0].reason), rs[1..]);
    }
  }

  /** Minting never loses an identity: it is still held, as before or provisionally. */
  lemma {:induction false} MintAllKeeps(ts: seq<Tombstone>, rs: seq<Retire>, t: Tombstone) returns (m: Tombstone)
    requires t in ts
    ensures m in MintAll(ts, rs) && m.id == t.id && (m == t || m.gen.Provisional?)
    decreases |rs|
  {
    if rs == [] {
      m := t;
    } else {
      MintMembers(ts, rs[0].id, rs[0].at, rs[0].reason);
      var n := if t.id == rs[0].id then Tombstone(rs[0].id, rs[0].at, rs[0].reason, Provisional) else t;
      m := MintAllKeeps(Mint(ts, rs[0].id, rs[0].at, rs[0].reason), rs[1..], n);
    }
  }

  // ------------------------------------------------------------------- what a write keeps

  predicate Settled(ts: seq<Tombstone>) { forall t :: t in ts ==> !t.gen.Provisional? }

  predicate HasRoom(f: GenFile) { PendingCount(f) == 0 || Base(f) + PendingCount(f) <= CEILING }

  /** Counters and numbers below the ceiling, where the clamps do nothing. */
  ghost predicate InRange(f: GenFile) {
    && f.routeGen <= CEILING && f.applied <= CEILING
    && forall t :: t in f.tombstones ==> GenOf(t) <= CEILING
  }

  lemma {:induction false} MaxGenInRange(ts: seq<Tombstone>)
    requires forall t :: t in ts ==> GenOf(t) <= CEILING
    ensures MaxGen(ts) <= CEILING
  {
    if ts != [] {
      assert ts[0] in ts;
      MaxGenInRange(ts[1..]);
    }
  }

  lemma BaseBounds(f: GenFile)
    requires InRange(f)
    ensures f.routeGen <= Base(f) && f.applied <= Base(f)
    ensures forall t :: t in f.tombstones ==> GenOf(t) <= Base(f)
  {
    MaxGenInRange(f.tombstones);
  }

  /** The tombstone a written one comes from, and what became of it. */
  ghost predicate WrittenFrom(f: GenFile, t: Tombstone, m: Tombstone) {
    && t in f.tombstones && m.id == t.id
    && (m == t || (t.gen.Provisional? && m.gen.Finalized? && Base(f) < m.gen.n))
  }

  /** After an allocating write: nothing provisional, old numbers kept, new ones above the base, one owner each. */
  lemma FinalizeFacts(f: GenFile)
    requires InRange(f) && HasRoom(f)
    ensures Settled(Finalize(f).tombstones)
    ensures Finalize(f).applied == f.applied
    ensures f.routeGen <= Finalize(f).routeGen <= CEILING
    ensures forall m :: m in Finalize(f).tombstones ==> exists t :: WrittenFrom(f, t, m)
    ensures forall t :: t in f.tombstones ==> exists m :: m in Finalize(f).tombstones && WrittenFrom(f, t, m)
    ensures forall m :: m in Finalize(f).tombstones && m !in f.tombstones ==> GenOf(m) <= Finalize(f).routeGen
  {
    FinalizeIsWellAllocated(f);
    BaseBounds(f);
    var r := Finalize(f);
    forall m | m in r.tombstones
      ensures !m.gen.Provisional? && exists t :: WrittenFrom(f, t, m)
      ensures m !in f.tombstones ==> GenOf(m) <= r.routeGen
    {
      var i :| 0 <= i < |r.tombstones| && r.tombstones[i] == m;
      assert StampedAt(f, r, i);
      assert WrittenFrom(f, f.tombstones[i], m);
    }
    forall t | t in f.tombstones ensures exists m :: m in r.tombstones && WrittenFrom(f, t, m) {
      var i :| 0 <= i < |f.tombstones| && f.tombstones[i] == t;
      assert StampedAt(f, r, i);
      assert r.tombstones[i] in r.tombstones && WrittenFrom(f, t, r.tombstones[i]);
    }
  }

  /** No two identities are given one number. */
  lemma NewNumbersAreUnique(f: GenFile, a: Tombstone, b: Tombstone)
    requires InRange(f) && HasRoom(f)
    requires a in Finalize(f).tombstones && b in Finalize(f).tombstones
    requires a.gen.Finalized? && a.gen == b.gen && Base(f) < a.gen.n
    ensures a == b
  {
    FinalizeIsWellAllocated(f);
    BaseBounds(f);
    var r := Finalize(f);
    var i :| 0 <= i < |r.tombstones| && r.tombstones[i] == a;
    var j :| 0 <= j < |r.tombstones| && r.tombstones[j] == b;
    assert StampedAt(f, r, i) && StampedAt(f, r, j) && OrderedPair(f, r, i, j);
    assert f.tombstones[i] in f.tombstones && f.tombstones[j] in f.tombstones;
  }
}
