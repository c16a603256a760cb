/** A writer's whole state file against what is on disk and what the writer started from. */
module ReconcilePersist {
  import opened Wrappers
  import opened Tombstones
  import opened Generations
  import opened Peers

  /** `keys` is every top-level key but the admitted peers, the tombstones and the two counters. */
  datatype State = State(keys: map<string, Value>, admitted: Admitted, gens: GenFile)

  function At(m: map<string, Value>, k: string): Option<Value> { if k in m then Some(m[k]) else None }

  /** Disk's, unless this writer changed it, a removal included. */
  function MergedKey(disk: map<string, Value>, base: map<string, Value>, cur: map<string, Value>, k: string)
    : Option<Value>
  {
    if At(cur, k) == At(base, k) then At(disk, k) else At(cur, k)
  }

  function MergedKeys(disk: map<string, Value>, base: map<string, Value>, cur: map<string, Value>): map<string, Value> {
    map k | k in disk.Keys + cur.Keys && MergedKey(disk, base, cur, k).Some? :: MergedKey(disk, base, cur, k).value
  }

  function Reconciled(ports: Ports, disk: State, base: State, cur: State): State {
    State(MergedKeys(disk.keys, base.keys, cur.keys),
          MergeAdmitted(ports, disk.admitted, base.admitted, cur.admitted),
          Reconcile(disk.gens, base.gens, cur.gens))
  }

  /** One loop over the keys of baseline and current, writing into a copy of disk. */
  method ReconcileKeys(disk: map<string, Value>, base: map<string, Value>, cur: map<string, Value>)
    returns (result: map<string, Value>)
    ensures result == MergedKeys(disk, base, cur)
  {
    result := disk;
    var todo := base.Keys + cur.Keys;
    while todo != {}
      invariant todo <= base.Keys + cur.Keys
      invariant forall k :: k !in todo ==> At(result, k) == MergedKey(disk, base, cur, k)
      invariant forall k :: k in todo ==> At(result, k) == At(disk, k)
      decreases todo
    {
      var k :| k in todo;
      todo := todo - {k};
      if At(cur, k) != At(base, k) {
        result := if k in cur then result[k := cur[k]] else result - {k};
      }
    }
    var spec := MergedKeys(disk, base, cur);
    forall k ensures k in result <==> k in spec {
      assert At(result, k) == MergedKey(disk, base, cur, k);
    }
    forall k | k in result ensures result[k] == spec[k] {
      assert At(result, k) == MergedKey(disk, base, cur, k);
    }
  }

  /** Two loops: disk without what this writer forgot, then this writer's snapshot over it. */
  method MergeByRevision(ports: Ports, disk: Admitted, base: Admitted, mine: Admitted) returns (byName: Admitted)
    ensures byName == MergeAdmitted(ports, disk, base, mine)
  {
    var forgotten := base.Keys - mine.Keys;
    byName := map[];
    var todo := disk.Keys;
    while todo != {}
      invariant todo <= disk.Keys
      invariant forall n :: Lookup(byName, n) == if n in todo || n in forgotten then None else Lookup(disk, n)
      decreases todo
    {
      var n :| n in todo;
      todo := todo - {n};
      if n !in forgotten { byName := byName[n := disk[n]]; }
    }
    todo := mine.Keys;
    while todo != {}
      invariant todo <= mine.Keys
      invariant forall n :: Lookup(byName, n) ==
                  if n in todo then Lookup(disk, n) else MergeName(ports, disk, base, mine, n)
      decreases todo
    {
      var n :| n in todo;
      todo := todo - {n};
      if n in byName {
        byName := byName[n := MergeRecord(ports, byName[n], mine[n], Lookup(base, n))];
      } else if n !in base {
        byName := byName[n := mine[n]];
      }
    }
    SameByName(byName, ports, disk, base, mine);
  }

  lemma SameByName(got: Admitted, ports: Ports, disk: Admitted, base: Admitted, mine: Admitted)
    requires forall n :: Lookup(got, n) == MergeName(ports, disk, base, mine, n)
    ensures got == MergeAdmitted(ports, disk, base, mine)
  {
    var spec := MergeAdmitted(ports, disk, base, mine);
    forall n ensures Lookup(got, n) == Lookup(spec, n) {
      assert Lookup(got, n) == MergeName(ports, disk, base, mine, n);
    }
    EqualByLookup(got, spec);
  }

  lemma EqualByLookup(a: Admitted, b: Admitted)
    requires forall n :: Lookup(a, n) == Lookup(b, n)
    ensures a == b
  {
    forall n ensures n in a <==> n in b { assert Lookup(a, n) == Lookup(b, n); }
    forall n | n in a ensures a[n] == b[n] { assert Lookup(a, n) == Lookup(b, n); }
  }

  /** `reconcilePersist`. */
  method Persist(ports: Ports, disk: State, base: State, cur: State) returns (result: State)
    ensures result == Reconciled(ports, disk, base, cur)
  {
    var keys := ReconcileKeys(disk.keys, base.keys, cur.keys);
    var admitted := MergeByRevision(ports, disk.admitted, base.admitted, cur.admitted);
    var routeGen := Max(Max(disk.gens.routeGen, cur.gens.routeGen), base.gens.routeGen);
    var applied := Max(Max(disk.gens.applied, cur.gens.applied), base.gens.applied);
    var merged := MergeTombstones(disk.gens.tombstones, cur.gens.tombstones);
    var gens := FinalizeRouteGens(GenFile(routeGen, applied, Prune(merged, applied)));
    result := State(keys, admitted, gens);
  }

  // ------------------------------------------------------------ three-way set merge

  lemma AdmittedAt(ports: Ports, disk: Admitted, base: Admitted, mine: Admitted, n: string)
    ensures Lookup(MergeAdmitted(ports, disk, base, mine), n) == MergeName(ports, disk, base, mine, n)
  {
  }

  /** A baseline name survives when both disk and the writer still hold it, a new one when either does. */
  lemma NamesMergeThreeWay(ports: Ports, disk: Admitted, base: Admitted, mine: Admitted, n: string)
    ensures n in MergeAdmitted(ports, disk, base, mine)
       <==> if n in base then n in disk && n in mine else n in disk || n in mine
  {
    AdmittedAt(ports, disk, base, mine, n);
  }

  /** What stands under a name is the one record there is of it, or the merge of the two against what the writer
      read. */
  lemma RecordsMergeByName(ports: Ports, disk: Admitted, base: Admitted, mine: Admitted, n: string)
    requires n in MergeAdmitted(ports, disk, base, mine)
    ensures MergeAdmitted(ports, disk, base, mine)[n]
         == if n !in mine then disk[n] else if n !in disk then mine[n]
            else MergeRecord(ports, disk[n], mine[n], if n in base then Some(base[n]) else None)
  {
    AdmittedAt(ports, disk, base, mine, n);
  }

  /** A top-level key the writer set or removed is as it left it, and any other as disk has it. */
  lemma KeysMergeThreeWay(disk: map<string, Value>, base: map<string, Value>, cur: map<string, Value>, k: string)
    ensures var merged := MergedKeys(disk, base, cur);
            var touched := (k in cur) != (k in base) || (k in cur && cur[k] != base[k]);
            var from := if touched then cur else disk;
            (k in merged <==> k in from) && (k in from ==> merged[k] == from[k])
  {
  }

  // ------------------------------------------------------------------- retirements

  /** No write leaves a consumed or a provisional tombstone behind. */
  lemma NothingConsumedIsWritten(disk: GenFile, base: GenFile, cur: GenFile, m: Tombstone)
    requires InRange(Joined(disk, base, cur)) && HasRoom(Joined(disk, base, cur))
    requires m in Reconcile(disk, base, cur).tombstones
    ensures !m.gen.Provisional? && !Consumed(m, disk.applied) && !Consumed(m, Reconcile(disk, base, cur).applied)
  {
    var f := Joined(disk, base, cur);
    FinalizeFacts(f);
    BaseBounds(f);
    var t :| WrittenFrom(f, t, m);
  }

  /** And none loses a retirement, numbered or about to be, that is not consumed. */
  lemma RetirementsAreKept(disk: GenFile, base: GenFile, cur: GenFile, t: Tombstone) returns (m: Tombstone)
    requires InRange(Joined(disk, base, cur)) && HasRoom(Joined(disk, base, cur))
    requires t in disk.tombstones || t in cur.tombstones
    requires !t.gen.Legacy? && !Consumed(t, Joined(disk, base, cur).applied)
    requires GenOf(t) <= Joined(disk, base, cur).routeGen
    ensures m in Reconcile(disk, base, cur).tombstones && Answers(m, t)
  {
    var u := Strongest(disk.tombstones, cur.tombstones, t);
    m := Kept(Joined(disk, base, cur), u, t);
  }

  lemma Strongest(a: seq<Tombstone>, b: seq<Tombstone>, t: Tombstone) returns (u: Tombstone)
    requires t in a || t in b
    ensures u in Merge(a, b) && u.id == t.id && !Below(RankOf(u), RankOf(t))
  {
    MergeCovers(a, b, t);
    u :| u in Merge(a, b) && u.id == t.id && !Below(RankOf(u), RankOf(t));
  }

  lemma Kept(f: GenFile, u: Tombstone, t: Tombstone) returns (m: Tombstone)
    requires InRange(f) && HasRoom(f) && !t.gen.Legacy? && GenOf(t) <= f.routeGen
    requires u in f.tombstones && u.id == t.id && !Below(RankOf(u), RankOf(t))
    ensures m in Finalize(f).tombstones && Answers(m, t)
  {
    m := Written(f, u);
    BaseBounds(f);
  }

  lemma Written(f: GenFile, u: Tombstone) returns (m: Tombstone)
    requires InRange(f) && HasRoom(f) && u in f.tombstones
    ensures m in Finalize(f).tombstones && !m.gen.Provisional? && WrittenFrom(f, u, m)
  {
    FinalizeFacts(f);
    m :| m in Finalize(f).tombstones && WrittenFrom(f, u, m);
  }

  /** The same identity, retired at that number or a later one. */
  predicate Answers(m: Tombstone, t: Tombstone) {
    m.id == t.id && m.gen.Finalized? && (t.gen.Finalized? ==> t.gen.n <= m.gen.n)
  }
}
