/** What every step of the retirement protocol keeps. */
module ProtocolInvariant {
  import opened Wrappers
  import opened Tombstones
  import opened KeyStore
  import opened Generations
  import opened Protocol

  // --------------------------------------------------------------------- the parts

  /** The store tracks nothing for this identity that was claimed before its retirement. */
  ghost predicate Clean(store: Store, r: Retirement) {
    r.id in store.entries ==> store.entries[r.id].gen.Some? && r.gen <= store.entries[r.id].gen.value
  }

  ghost predicate CleanThrough(store: Store, retired: set<Retirement>, n: nat) {
    forall r :: r in retired && r.gen <= n ==> Clean(store, r)
  }

  /** Some pending tombstone of the identity is at least as recent as the retirement. */
  ghost predicate Covered(ts: seq<Tombstone>, r: Retirement) {
    exists t :: t in ts && t.id == r.id && t.gen.Finalized? && r.gen <= t.gen.n
  }

  ghost predicate Known(ts: seq<Tombstone>, retired: set<Retirement>) {
    forall t :: t in ts && t.gen.Finalized? ==> Retirement(t.id, t.gen.n) in retired
  }

  ghost predicate DiskOk(disk: GenFile, retired: set<Retirement>) {
    && Settled(disk.tombstones)
    && disk.applied <= disk.routeGen <= CEILING
    && Known(disk.tombstones, retired)
    && (forall t :: t in disk.tombstones && t.gen.Finalized? ==> disk.applied < t.gen.n)
  }

  ghost predicate RetiredOk(disk: GenFile, retired: set<Retirement>) {
    && (forall r :: r in retired ==> r.gen <= disk.routeGen)
    && (forall r {:trigger Covered(disk.tombstones, r)} ::
        r in retired ==> r.gen <= disk.applied || Covered(disk.tombstones, r))
    && (forall r, q :: r in retired && q in retired && r.gen == q.gen ==> r == q)
  }

  /** A copy some process holds: never ahead of the file. */
  ghost predicate CopyOk(f: GenFile, disk: GenFile, retired: set<Retirement>) {
    && f.routeGen <= disk.routeGen && f.applied <= disk.applied
    && Known(f.tombstones, retired)
  }

  ghost predicate CliOk(c: Cli, disk: GenFile, retired: set<Retirement>) {
    CopyOk(c.baseline, disk, retired) && CopyOk(c.current, disk, retired)
  }

  /** A copy and the retirements it reflects: exactly those its counter has reached. */
  ghost predicate ReadOk(rd: Read, disk: GenFile, retired: set<Retirement>) {
    && CopyOk(rd.file, disk, retired)
    && Settled(rd.file.tombstones)
    && (forall t :: t in rd.file.tombstones && t.gen.Finalized? ==> t.gen.n <= rd.file.routeGen)
    && rd.seen <= retired
    && (forall r :: r in retired ==> (r in rd.seen <==> r.gen <= rd.file.routeGen))
  }

  ghost predicate BootOk(d: Daemon, disk: GenFile, retired: set<Retirement>) {
    && disk.applied == d.boot.file.applied
    && d.mem == d.boot.file && d.seen == d.boot.seen
    && (forall r {:trigger Covered(d.boot.file.tombstones, r)} ::
          r in retired && disk.applied < r.gen <= d.boot.file.routeGen ==> Covered(d.boot.file.tombstones, r))
  }

  ghost predicate StoreOk(d: Daemon, sidecar: Store, retired: set<Retirement>) {
    var n := d.boot.file.routeGen;
    match d.phase
    case DirLoaded => d.store == EMPTY
    case StoreLoaded => d.store == sidecar
    case Applied(dropped) => CleanThrough(d.store, retired, n) && (!dropped ==> d.store.entries == sidecar.entries)
    case Written(durably) => CleanThrough(d.store, retired, n) && (durably ==> CleanThrough(sidecar, retired, n))
    case Serving => CleanThrough(d.store, retired, n)
  }

  ghost predicate DaemonOk(d: Daemon, disk: GenFile, sidecar: Store, retired: set<Retirement>) {
    && ReadOk(d.boot, disk, retired)
    && d.boot.file.routeGen <= d.mem.routeGen <= disk.routeGen
    && disk.applied <= d.boot.file.routeGen
    && d.seen <= retired
    && (forall r :: r in retired ==> (r in d.seen <==> r.gen <= d.mem.routeGen))
    && (d.reload.Some? ==> ReadOk(d.reload.value, disk, retired))
    && (d.phase.Serving? || BootOk(d, disk, retired))
    && StoreOk(d, sidecar, retired)
  }

  /** A stamp's number says exactly which retirements its maker had seen. */
  ghost predicate ClaimsOk(claims: set<Claim>, disk: GenFile, retired: set<Retirement>) {
    forall c :: c in claims ==>
      && c.gen <= disk.routeGen && c.seen <= retired
      && forall r :: r in retired ==> (r in c.seen <==> r.gen <= c.gen)
  }

  ghost predicate StampsOk(store: Store, claims: set<Claim>) {
    forall id :: id in store.entries && store.entries[id].gen.Some? ==>
      exists c :: c in claims && c.id == id && c.gen == store.entries[id].gen.value
  }

  ghost predicate Inv(s: System) {
    && DiskOk(s.disk, s.retired)
    && RetiredOk(s.disk, s.retired)
    && CleanThrough(s.sidecar, s.retired, s.disk.applied)
    && (forall pid :: pid in s.clis ==> CliOk(s.clis[pid], s.disk, s.retired))
    && (s.daemon.Some? ==> DaemonOk(s.daemon.value, s.disk, s.sidecar, s.retired))
    && ClaimsOk(s.claims, s.disk, s.retired)
    && StampsOk(s.sidecar, s.claims)
    && (s.daemon.Some? ==> StampsOk(s.daemon.value.store, s.claims))
  }

  lemma InitInv(s: System)
    requires Init(s)
    ensures Inv(s)
  {}

  // ------------------------------------------------------------- allocating writes

  /** A file about to be finalized: nothing pending on disk is lost, nothing unknown is added. */
  ghost predicate Draft(f: GenFile, disk: GenFile, retired: set<Retirement>) {
    && f.routeGen == disk.routeGen && f.applied == disk.applied
    && Known(f.tombstones, retired)
    && (forall t :: t in f.tombstones && t.gen.Finalized? ==> f.applied < t.gen.n)
    && (forall t :: t in disk.tombstones && t.gen.Finalized? ==> Carried(f.tombstones, t))
  }

  /** The list still answers for a finalized tombstone, as strongly or provisionally. */
  ghost predicate Carried(ts: seq<Tombstone>, t: Tombstone)
    requires t.gen.Finalized?
  {
    exists m :: m in ts && m.id == t.id && (m.gen.Provisional? || (m.gen.Finalized? && t.gen.n <= m.gen.n))
  }

  lemma DraftInRange(f: GenFile, disk: GenFile, retired: set<Retirement>)
    requires DiskOk(disk, retired) && RetiredOk(disk, retired) && Draft(f, disk, retired)
    ensures InRange(f) && Base(f) == disk.routeGen
  {
    forall t | t in f.tombstones ensures GenOf(t) <= disk.routeGen {
      if t.gen.Finalized? { assert Retirement(t.id, t.gen.n) in retired; }
    }
    MaxGenBound(f.tombstones, disk.routeGen);
  }

  lemma {:induction false} MaxGenBound(ts: seq<Tombstone>, n: nat)
    requires forall t :: t in ts ==> GenOf(t) <= n
    ensures MaxGen(ts) <= n
  {
    if ts != [] {
      assert ts[0] in ts;
      MaxGenBound(ts[1..], n);
    }
  }

  lemma LoadIsDraft(disk: GenFile, retired: set<Retirement>)
    requires DiskOk(disk, retired) && RetiredOk(disk, retired)
    ensures Load(disk).routeGen == disk.routeGen && Load(disk).applied == disk.applied
    ensures forall t :: t in Load(disk).tombstones <==> t in disk.tombstones
  {
    forall t | t in disk.tombstones ensures GenOf(t) <= disk.routeGen {
      if t.gen.Finalized? { assert Retirement(t.id, t.gen.n) in retired; }
    }
    MaxGenBound(disk.tombstones, disk.routeGen);
  }

  lemma PageDraftOk(disk: GenFile, retired: set<Retirement>, rs: seq<Retire>)
    requires DiskOk(disk, retired) && RetiredOk(disk, retired)
    ensures Draft(PageDraft(disk, rs), disk, retired)
  {
    LoadIsDraft(disk, retired);
    var ts := Load(disk).tombstones;
    MintAllAddsProvisionals(ts, rs);
    forall t | t in disk.tombstones && t.gen.Finalized? ensures Carried(PageDraft(disk, rs).tombstones, t) {
      var m := MintAllKeeps(ts, rs, t);
    }
  }

  lemma JoinedOk(disk: GenFile, cli: Cli, retired: set<Retirement>)
    requires DiskOk(disk, retired) && RetiredOk(disk, retired)
    requires CliOk(cli, disk, retired)
    ensures Draft(Joined(disk, cli.baseline, cli.current), disk, retired)
  {
    var f := Joined(disk, cli.baseline, cli.current);
    var merged := Merge(disk.tombstones, cli.current.tombstones);
    forall t | t in f.tombstones && t.gen.Finalized?
      ensures Retirement(t.id, t.gen.n) in retired
    {
      MergeIsKeywiseJoin(disk.tombstones, cli.current.tombstones, t.id);
    }
    forall t | t in disk.tombstones && t.gen.Finalized? ensures Carried(f.tombstones, t) {
      MergeCovers(disk.tombstones, cli.current.tombstones, t);
      var m :| m in merged && m.id == t.id && !Below(RankOf(m), RankOf(t));
      assert !Consumed(m, f.applied);
    }
  }

  /** Every number in the written file is an old one or a new one above all the old. */
  lemma WrittenNumber(f: GenFile, disk: GenFile, retired: set<Retirement>, m: Tombstone)
    requires DiskOk(disk, retired) && RetiredOk(disk, retired) && Draft(f, disk, retired) && HasRoom(f)
    requires m in Finalize(f).tombstones
    ensures !m.gen.Provisional?
    ensures m.gen.Finalized? ==> disk.applied < m.gen.n <= Finalize(f).routeGen
    ensures m.gen.Finalized? ==> Retirement(m.id, m.gen.n) in retired || disk.routeGen < m.gen.n
  {
    DraftInRange(f, disk, retired);
    FinalizeFacts(f);
    var t :| WrittenFrom(f, t, m);
    if m == t && m.gen.Finalized? { assert Retirement(m.id, m.gen.n) in retired; }
  }

  lemma ImageIsStronger(f: GenFile, disk: GenFile, retired: set<Retirement>, m: Tombstone, n: nat)
    returns (w: Tombstone)
    requires DiskOk(disk, retired) && RetiredOk(disk, retired) && Draft(f, disk, retired) && HasRoom(f)
    requires m in f.tombstones && n <= disk.routeGen
    requires m.gen.Provisional? || (m.gen.Finalized? && n <= m.gen.n)
    ensures w in Finalize(f).tombstones && w.id == m.id && w.gen.Finalized? && n <= w.gen.n
  {
    DraftInRange(f, disk, retired);
    w := Image(f, m);
    WrittenNumber(f, disk, retired, w);
  }

  lemma StillCovered(f: GenFile, disk: GenFile, retired: set<Retirement>, r: Retirement)
    requires DiskOk(disk, retired) && RetiredOk(disk, retired) && Draft(f, disk, retired) && HasRoom(f)
    requires r in retired && Covered(disk.tombstones, r)
    ensures Covered(Finalize(f).tombstones, r)
  {
    var t :| t in disk.tombstones && t.id == r.id && t.gen.Finalized? && r.gen <= t.gen.n;
    assert Carried(f.tombstones, t);
    var m :| m in f.tombstones && m.id == t.id && (m.gen.Provisional? || (m.gen.Finalized? && t.gen.n <= m.gen.n));
    var w := ImageIsStronger(f, disk, retired, m, r.gen);
  }

  lemma Image(f: GenFile, t: Tombstone) returns (m: Tombstone)
    requires InRange(f) && HasRoom(f) && t in f.tombstones
    ensures m in Finalize(f).tombstones && WrittenFrom(f, t, m)
  {
    FinalizeFacts(f);
    m :| m in Finalize(f).tombstones && WrittenFrom(f, t, m);
  }

  lemma Owner(ts: seq<Tombstone>, r: Retirement) returns (t: Tombstone)
    requires r in Numbered(ts)
    ensures t in ts && t.gen.Finalized? && t.id == r.id && t.gen.n == r.gen
  {
    t :| t in ts && t.gen.Finalized? && r == Retirement(t.id, t.gen.n);
  }

  lemma WriteOrders(f: GenFile, disk: GenFile, retired: set<Retirement>)
    requires DiskOk(disk, retired) && RetiredOk(disk, retired) && Draft(f, disk, retired) && HasRoom(f)
    ensures var next := Finalize(f);
            && disk.routeGen <= next.routeGen <= CEILING && disk.applied == next.applied
            && DiskOk(next, retired + Numbered(next.tombstones))
            && (forall r :: r in Numbered(next.tombstones) && r !in retired ==> disk.routeGen < r.gen <= next.routeGen)
  {
    var next := Finalize(f);
    DraftInRange(f, disk, retired);
    FinalizeFacts(f);
    forall m | m in next.tombstones
      ensures !m.gen.Provisional? && (m.gen.Finalized? ==> disk.applied < m.gen.n)
    {
      WrittenNumber(f, disk, retired, m);
    }
    forall r | r in Numbered(next.tombstones) && r !in retired ensures disk.routeGen < r.gen <= next.routeGen {
      var t := Owner(next.tombstones, r);
      WrittenNumber(f, disk, retired, t);
    }
  }

  lemma OneOwner(f: GenFile, disk: GenFile, retired: set<Retirement>, r: Retirement, q: Retirement)
    requires DiskOk(disk, retired) && RetiredOk(disk, retired) && Draft(f, disk, retired) && HasRoom(f)
    requires r in Numbered(Finalize(f).tombstones) && q in Numbered(Finalize(f).tombstones)
    requires r.gen == q.gen && disk.routeGen < r.gen
    ensures r == q
  {
    DraftInRange(f, disk, retired);
    var a := Owner(Finalize(f).tombstones, r);
    var b := Owner(Finalize(f).tombstones, q);
    NewNumbersAreUnique(f, a, b);
  }

  /** New numbers go strictly above everything the file had recorded, one to an identity. */
  lemma WriteFacts(f: GenFile, disk: GenFile, retired: set<Retirement>)
    requires DiskOk(disk, retired) && RetiredOk(disk, retired) && Draft(f, disk, retired) && HasRoom(f)
    ensures RetiredOk(Finalize(f), retired + Numbered(Finalize(f).tombstones))
  {
    var next := Finalize(f);
    var all := retired + Numbered(next.tombstones);
    WriteOrders(f, disk, retired);
    forall r | r in all ensures r.gen <= next.applied || Covered(next.tombstones, r) {
      if r !in retired {
        var t := Owner(next.tombstones, r);
      } else if r.gen > disk.applied {
        StillCovered(f, disk, retired, r);
      }
    }
    forall r, q | r in all && q in all && r.gen == q.gen ensures r == q {
      if r !in retired && q !in retired { OneOwner(f, disk, retired, r, q); }
    }
  }

  /** Growing the file leaves every copy and every claim as accurate as it was. */
  lemma GrowthKeepsCopies(disk: GenFile, retired: set<Retirement>, next: GenFile, more: set<Retirement>, rd: Read)
    requires RetiredOk(disk, retired) && Grew(disk, retired, next, more)
    requires ReadOk(rd, disk, retired)
    ensures ReadOk(rd, next, more)
  {}

  /** The file moved on: counters grew, and whatever is newly retired is numbered above the old counter. */
  ghost predicate Grew(disk: GenFile, retired: set<Retirement>, next: GenFile, more: set<Retirement>) {
    && disk.routeGen <= next.routeGen && disk.applied == next.applied
    && retired <= more
    && (forall r :: r in more && r !in retired ==> disk.routeGen < r.gen)
  }

  lemma GrowthKeepsDaemon(disk: GenFile, retired: set<Retirement>, next: GenFile, more: set<Retirement>,
                          sidecar: Store, d: Daemon)
    requires RetiredOk(disk, retired) && Grew(disk, retired, next, more)
    requires DaemonOk(d, disk, sidecar, retired)
    ensures DaemonOk(d, next, sidecar, more)
  {
    GrowthKeepsCopies(disk, retired, next, more, d.boot);
    if d.reload.Some? { GrowthKeepsCopies(disk, retired, next, more, d.reload.value); }
    forall r | r in more ensures r in d.seen <==> r.gen <= d.mem.routeGen {}
    assert forall r :: r in more && r.gen <= d.boot.file.routeGen ==> r in retired;
  }

  lemma GrowthKeepsClaims(disk: GenFile, retired: set<Retirement>, next: GenFile, more: set<Retirement>,
                          claims: set<Claim>)
    requires Grew(disk, retired, next, more) && ClaimsOk(claims, disk, retired)
    ensures ClaimsOk(claims, next, more)
  {}

  lemma GrowthKeepsClis(disk: GenFile, retired: set<Retirement>, next: GenFile, more: set<Retirement>, c: Cli)
    requires Grew(disk, retired, next, more) && CliOk(c, disk, retired)
    ensures CliOk(c, next, more)
  {}

  lemma WriteKeeps(s: System, f: GenFile)
    requires Inv(s) && Draft(f, s.disk, s.retired) && HasRoom(f)
    ensures Inv(Write(s, Finalize(f)))
  {
    WriteOrders(f, s.disk, s.retired);
    WriteFacts(f, s.disk, s.retired);
    var s' := Write(s, Finalize(f));
    if s.daemon.Some? {
      GrowthKeepsDaemon(s.disk, s.retired, s'.disk, s'.retired, s.sidecar, s.daemon.value);
    }
    GrowthKeepsClaims(s.disk, s.retired, s'.disk, s'.retired, s.claims);
    forall pid | pid in s.clis ensures CliOk(s.clis[pid], s'.disk, s'.retired) {
      GrowthKeepsClis(s.disk, s.retired, s'.disk, s'.retired, s.clis[pid]);
    }
    forall r | r in s'.retired && r.gen <= s'.disk.applied ensures Clean(s.sidecar, r) {
      assert r in s.retired;
    }
  }
}
