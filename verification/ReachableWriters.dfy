/** What every reachable file and every process's copy of it are like, and so what an idle or a disjoint write does. */
module ReachableWriters {
  import opened Wrappers
  import opened Keys
  import opened KeyStore
  import opened Tombstones
  import opened Generations
  import opened Protocol
  import opened ProtocolInvariant
  import opened ProtocolSafety
  import opened Writers

  /** In every run the file is sound and no process is ahead of it: what two disjoint writes ask for. */
  lemma ReachableIsSound(states: seq<System>, steps: seq<Step>, i: nat, pid: nat)
    requires Run(states, steps) && i < |states| && pid in states[i].clis
    ensures Sound(states[i].disk)
    ensures Behind(states[i].disk, states[i].clis[pid].baseline, states[i].clis[pid].current)
  {
    RunInv(states, steps, i);
    var (s, cli) := (states[i], states[i].clis[pid]);
    assert CliOk(cli, s.disk, s.retired);
    NumberedBelow(s.disk.tombstones, s);
    NumberedBelow(cli.current.tombstones, s);
  }

  lemma NumberedBelow(ts: seq<Tombstone>, s: System)
    requires Inv(s) && Known(ts, s.retired)
    ensures forall t :: t in ts ==> GenOf(t) <= s.disk.routeGen
  {
    forall t | t in ts && t.gen.Finalized? ensures t.gen.n <= s.disk.routeGen {
      assert Retirement(t.id, t.gen.n) in s.retired;
    }
  }

  // ------------------------------------------------------------------------ an idle process

  ghost predicate BaselinesSettled(s: System) {
    forall pid :: pid in s.clis ==> Settled(s.clis[pid].baseline.tombstones)
  }

  lemma {:induction false} RunBaselines(states: seq<System>, steps: seq<Step>, i: nat)
    requires Run(states, steps) && i < |states|
    ensures BaselinesSettled(states[i])
  {
    if i > 0 {
      RunBaselines(states, steps, i - 1);
      RunInv(states, steps, i - 1);
      assert Follows(states, steps, i - 1);
    }
  }

  /** Apart from tombstones older than generations, the file always still answers what a process read. */
  lemma OnlyLegacyGoesUnanswered(states: seq<System>, steps: seq<Step>, i: nat, pid: nat, id: KeyId)
    requires Run(states, steps) && i < |states| && pid in states[i].clis
    requires !StillAnswered(states[i].disk, states[i].clis[pid].baseline, id)
    ensures || Top(states[i].disk.tombstones, id).tier == 0
            || Top(states[i].clis[pid].baseline.tombstones, id).tier == 0
  {
    RunInv(states, steps, i);
    RunBaselines(states, steps, i);
    var (s, base) := (states[i], states[i].clis[pid].baseline);
    assert CliOk(s.clis[pid], s.disk, s.retired);
    TopIsHeld(s.disk.tombstones, id);
    TopIsHeld(base.tombstones, id);
    var b :| b in base.tombstones && b.id == id && RankOf(b) == Top(base.tombstones, id);
    if b.gen.Finalized? {
      var r := Retirement(id, b.gen.n);
      assert r in s.retired;
      if r.gen > s.disk.applied {
        assert Covered(s.disk.tombstones, r);
        var t :| t in s.disk.tombstones && t.id == r.id && t.gen.Finalized? && r.gen <= t.gen.n;
      }
    }
  }

  predicate NoLegacy(ts: seq<Tombstone>) { forall t :: t in ts ==> !t.gen.Legacy? }

  predicate ModernCli(c: Cli) { NoLegacy(c.baseline.tombstones) && NoLegacy(c.current.tombstones) }

  ghost predicate Modern(s: System) {
    && NoLegacy(s.disk.tombstones) && DistinctIds(s.disk.tombstones)
    && forall pid :: pid in s.clis ==> ModernCli(s.clis[pid])
  }

  lemma FinalizeIsModern(f: GenFile)
    requires InRange(f) && HasRoom(f) && NoLegacy(f.tombstones) && DistinctIds(f.tombstones)
    ensures NoLegacy(Finalize(f).tombstones) && DistinctIds(Finalize(f).tombstones)
  {
    FinalTop(f, KeyId([]));
    FinalizeHasNoLegacy(f);
  }

  lemma FinalizeHasNoLegacy(f: GenFile)
    requires InRange(f) && HasRoom(f) && NoLegacy(f.tombstones)
    ensures NoLegacy(Finalize(f).tombstones)
  {
    FinalizeFacts(f);
    forall m | m in Finalize(f).tombstones ensures !m.gen.Legacy? {
      var t :| WrittenFrom(f, t, m);
    }
  }

  lemma {:induction false} MintDistinct(ts: seq<Tombstone>, id: KeyId, at: int, reason: Reason)
    requires DistinctIds(ts)
    ensures DistinctIds(Mint(ts, id, at, reason))
  {
    if ts != [] && ts[0].id != id {
      MintDistinct(ts[1..], id, at, reason);
      MintMembers(ts[1..], id, at, reason);
      MintIds(ts[1..], id, at, reason);
      var tail := Mint(ts[1..], id, at, reason);
      forall i | 0 <= i < |tail| ensures tail[i].id != ts[0].id { assert tail[i] in tail; }
    }
  }

  lemma {:induction false} MintIds(ts: seq<Tombstone>, id: KeyId, at: int, reason: Reason)
    ensures forall m :: m in Mint(ts, id, at, reason) ==> m.id == id || m in ts
  {
    if ts != [] && ts[0].id != id { MintIds(ts[1..], id, at, reason); }
  }

  lemma {:induction false} MintAllDistinct(ts: seq<Tombstone>, rs: seq<Retire>)
    requires DistinctIds(ts)
    ensures DistinctIds(MintAll(ts, rs))
    decreases |rs|
  {
    if rs != [] {
      MintDistinct(ts, rs[0].id, rs[0].at, rs[0].reason);
      MintAllDistinct(Mint(ts, rs[0].id, rs[0].at, rs[0].reason), rs[1..]);
    }
  }

  lemma {:induction false} KeepDistinct(ts: seq<Tombstone>, processed: seq<Tombstone>, through: nat)
    requires DistinctIds(ts)
    ensures DistinctIds(Keep(ts, processed, through))
  {
    if ts != [] {
      KeepDistinct(ts[1..], processed, through);
      var tail := Keep(ts[1..], processed, through);
      forall i | 0 <= i < |tail| ensures tail[i].id != ts[0].id {
        assert tail[i] in ts[1..];
      }
    }
  }

  lemma PersistIsModern(s: System, pid: nat)
    requires Inv(s) && Modern(s) && Enabled(s, CliPersist(pid))
    ensures Modern(Next(s, CliPersist(pid)))
  {
    var cli := s.clis[pid];
    assert ModernCli(cli);
    JoinedOk(s.disk, cli, s.retired);
    DraftInRange(Joined(s.disk, cli.baseline, cli.current), s.disk, s.retired);
    JoinedTop(s.disk, cli.baseline, cli.current, KeyId([]));
    MergeIsKeywiseJoin(s.disk.tombstones, cli.current.tombstones, KeyId([]));
    FinalizeIsModern(Joined(s.disk, cli.baseline, cli.current));
  }

  lemma PageIsModern(s: System, rs: seq<Retire>, ids: seq<KeyId>, saved: bool)
    requires Inv(s) && Modern(s) && Enabled(s, PageChange(rs, ids, saved))
    ensures Modern(Next(s, PageChange(rs, ids, saved)))
  {
    var draft := PageDraft(s.disk, rs);
    PageDraftOk(s.disk, s.retired, rs);
    DraftInRange(draft, s.disk, s.retired);
    PruneDistinct(s.disk.tombstones, Load(s.disk).applied);
    MintAllDistinct(Load(s.disk).tombstones, rs);
    MintAllAddsProvisionals(Load(s.disk).tombstones, rs);
    FinalizeIsModern(draft);
  }

  lemma NextIsModern(s: System, step: Step)
    requires Inv(s) && Modern(s) && Enabled(s, step)
    ensures Modern(Next(s, step))
  {
    match step
    case CliStart(pid) => LoadIsDraft(s.disk, s.retired);
    case CliRetire(pid, r) =>
      assert ModernCli(s.clis[pid]);
      MintMembers(s.clis[pid].current.tombstones, r.id, r.at, r.reason);
    case CliPersist(pid) => PersistIsModern(s, pid);
    case PageChange(rs, ids, saved) => PageIsModern(s, rs, ids, saved);
    case BootConsume(ok) =>
      var boot := s.daemon.value.boot.file;
      KeepDistinct(s.disk.tombstones, boot.tombstones, boot.routeGen);
    case _ =>
  }

  lemma {:induction false} RunIsModern(states: seq<System>, steps: seq<Step>, i: nat)
    requires Run(states, steps) && i < |states| && states[0].disk.tombstones == []
    ensures Modern(states[i])
  {
    if i > 0 {
      RunIsModern(states, steps, i - 1);
      RunInv(states, steps, i - 1);
      assert Follows(states, steps, i - 1);
      NextIsModern(states[i - 1], steps[i - 1]);
    }
  }

  /** So in every run that began with no tombstones, a process that retired nobody writes the counters and tombstones
      back as they are, whatever the others did since it read them. */
  lemma IdleProcessLeavesGens(states: seq<System>, steps: seq<Step>, i: nat, pid: nat)
    requires Run(states, steps) && i < |states| && pid in states[i].clis && states[0].disk.tombstones == []
    ensures var (disk, base) := (states[i].disk, states[i].clis[pid].baseline); Reconcile(disk, base, base) == disk
  {
    RunInv(states, steps, i);
    RunIsModern(states, steps, i);
    var (s, base) := (states[i], states[i].clis[pid].baseline);
    assert CliOk(s.clis[pid], s.disk, s.retired) && ModernCli(s.clis[pid]);
    forall id ensures StillAnswered(s.disk, base, id) {
      TopIsHeld(s.disk.tombstones, id);
      TopIsHeld(base.tombstones, id);
      if !StillAnswered(s.disk, base, id) { OnlyLegacyGoesUnanswered(states, steps, i, pid, id); }
    }
    IdleGens(s.disk, base);
  }

  /** A tombstone older than generations does go unanswered: boot consumes it, and a process that read it before and
      changed nothing writes it back. */
  lemma LegacyReturns(id: KeyId, at: int) returns (states: seq<System>, steps: seq<Step>)
    ensures Run(states, steps) && |steps| == 7 && steps[6] == CliPersist(0)
    ensures 0 in states[6].clis && states[6].clis[0].current == states[6].clis[0].baseline
    ensures states[6].disk.tombstones == [] && states[7].disk.tombstones == [Tombstone(id, at, OnForget, Legacy)]
  {
    var f := GenFile(0, 0, [Tombstone(id, at, OnForget, Legacy)]);
    LegacyFile(f);
    var s0 := System(f, EMPTY, None, map[], {}, {});
    var s1 := Next(s0, CliStart(0));
    var s2 := Next(s1, BootDirectory);
    var s3 := Next(s2, BootStore);
    var s4, s5, s6 := LegacyBoot(f, s3);
    var s7 := Next(s6, CliPersist(0));
    states, steps := [s0], [];
    states, steps := Extended(states, steps, CliStart(0), s1);
    states, steps := Extended(states, steps, BootDirectory, s2);
    states, steps := Extended(states, steps, BootStore, s3);
    states, steps := Extended(states, steps, BootApply(true), s4);
    states, steps := Extended(states, steps, BootWrite(true), s5);
    states, steps := Extended(states, steps, BootConsume(true), s6);
    states, steps := Extended(states, steps, CliPersist(0), s7);
  }

  /** A run and one more step of it. */
  lemma Extended(states: seq<System>, steps: seq<Step>, step: Step, next: System)
    returns (longer: seq<System>, more: seq<Step>)
    requires Run(states, steps) && Enabled(states[|steps|], step) && next == Next(states[|steps|], step)
    ensures Run(longer, more) && |more| == |steps| + 1
    ensures longer[|steps|] == states[|steps|] && longer[|more|] == next && more[|steps|] == step
  {
    longer, more := states + [next], steps + [step];
    forall i | 0 <= i < |more| ensures Follows(longer, more, i) {
      if i < |steps| { assert Follows(states, steps, i); }
    }
  }

  lemma LegacyBoot(f: GenFile, s3: System) returns (s4: System, s5: System, s6: System)
    requires f.routeGen == 0 && f.applied == 0 && |f.tombstones| == 1 && f.tombstones[0].gen.Legacy?
    requires s3.disk == f && Running(s3, StoreLoaded)
    requires s3.daemon.value.boot.file == f && s3.daemon.value.store == EMPTY
    ensures Enabled(s3, BootApply(true)) && s4 == Next(s3, BootApply(true))
    ensures Enabled(s4, BootWrite(true)) && s5 == Next(s4, BootWrite(true))
    ensures Enabled(s5, BootConsume(true)) && s6 == Next(s5, BootConsume(true))
    ensures s6.disk == GenFile(0, 0, []) && s6.clis == s3.clis
  {
    LegacyFile(f);
    LegacyApplied(f.tombstones);
    s4 := Next(s3, BootApply(true));
    assert s4.daemon.value == s3.daemon.value.(phase := Applied(false)) && s4.disk == f;
    s5 := Next(s4, BootWrite(true));
    assert s5.daemon.value == s3.daemon.value.(phase := Written(true)) && s5.disk == f;
    s6 := Next(s5, BootConsume(true));
  }

  /** A file of one legacy tombstone loads as it is, is consumed whole, and is what an idle write makes of an empty
      one. */
  lemma LegacyFile(f: GenFile)
    requires f.routeGen == 0 && f.applied == 0 && |f.tombstones| == 1 && f.tombstones[0].gen.Legacy?
    ensures Load(f) == f && Consume(f, f.tombstones, 0) == GenFile(0, 0, [])
    ensures HasRoom(Joined(GenFile(0, 0, []), f, f)) && Reconcile(GenFile(0, 0, []), f, f) == f
  {
    var ts := f.tombstones;
    var none: seq<Tombstone> := ts[1..];
    assert ts == [ts[0]] && none == [] && ts[0] in ts;
    assert Prune(ts, 0) == [ts[0]] + Prune(none, 0) == ts;
    assert MaxGen(ts) == 0;
    assert Holds(ts, ts[0].id);
    assert Keep(ts, ts, 0) == Keep(none, ts, 0) == [];
    assert AbsorbAll([], ts) == AbsorbAll(Absorb([], ts[0]), none) == ts;
    NonePending(ts, 0);
  }

  lemma LegacyApplied(ts: seq<Tombstone>)
    ensures ApplyTombstones(EMPTY, ts) == EMPTY && !Matches(EMPTY, ts)
  {
  }
}
