/** What the steps of the retirement protocol get done, over every run: retirements are numbered, known, answered. */
module ProtocolEffects {
  import opened Wrappers
  import opened Keys
  import opened Tombstones
  import opened KeyStore
  import opened KeyStoreProofs
  import opened KeyStoreLaws
  import opened Generations
  import opened Protocol
  import opened ProtocolInvariant
  import opened ProtocolSafety
  import opened HailDaemon

  // ------------------------------------------------------------- a retirement is numbered

  predicate IsProvisionalOf(t: Tombstone, id: KeyId) { t.id == id && t.gen.Provisional? }

  ghost predicate HoldsProvisional(ts: seq<Tombstone>, id: KeyId) { exists t :: t in ts && IsProvisionalOf(t, id) }

  ghost predicate Pends(s: System, pid: nat, id: KeyId) {
    pid in s.clis && HoldsProvisional(s.clis[pid].current.tombstones, id)
  }

  lemma MintHolds(ts: seq<Tombstone>, id: KeyId, at: int, reason: Reason, other: KeyId)
    ensures HoldsProvisional(Mint(ts, id, at, reason), id)
    ensures HoldsProvisional(ts, other) ==> HoldsProvisional(Mint(ts, id, at, reason), other)
  {
    MintMembers(ts, id, at, reason);
    assert IsProvisionalOf(Tombstone(id, at, reason, Provisional), id);
    if HoldsProvisional(ts, other) && other != id {
      var t :| t in ts && IsProvisionalOf(t, other);
      assert t in Mint(ts, id, at, reason);
    }
  }

  lemma {:induction false} MintAllHolds(ts: seq<Tombstone>, rs: seq<Retire>, id: KeyId)
    ensures HoldsProvisional(ts, id) || (exists r :: r in rs && r.id == id) ==> HoldsProvisional(MintAll(ts, rs), id)
    decreases |rs|
  {
    if rs != [] {
      MintHolds(ts, rs[0].id, rs[0].at, rs[0].reason, id);
      MintAllHolds(Mint(ts, rs[0].id, rs[0].at, rs[0].reason), rs[1..], id);
    }
  }

  /** The file answers for the identity with a number it had not reached before. */
  ghost predicate NewlyNumbered(was: System, now: System, id: KeyId, gen: nat) {
    && was.disk.routeGen < gen <= now.disk.routeGen
    && Retirement(id, gen) in now.retired
    && exists t :: t in now.disk.tombstones && t.id == id && t.gen == Finalized(gen)
  }

  /** An allocating write numbers every identity its draft holds provisionally. */
  lemma WriteNumbers(s: System, f: GenFile, id: KeyId) returns (gen: nat)
    requires Inv(s) && Draft(f, s.disk, s.retired) && HasRoom(f) && HoldsProvisional(f.tombstones, id)
    ensures NewlyNumbered(s, Write(s, Finalize(f)), id, gen)
  {
    DraftInRange(f, s.disk, s.retired);
    var t :| t in f.tombstones && IsProvisionalOf(t, id);
    var m := Image(f, t);
    WrittenNumber(f, s.disk, s.retired, m);
    gen := m.gen.n;
    assert Retirement(id, gen) in Numbered(Finalize(f).tombstones);
  }

  lemma JoinedHolds(disk: GenFile, cli: Cli, id: KeyId)
    requires HoldsProvisional(cli.current.tombstones, id)
    ensures HoldsProvisional(Joined(disk, cli.baseline, cli.current).tombstones, id)
  {
    var f := Joined(disk, cli.baseline, cli.current);
    var t :| t in cli.current.tombstones && IsProvisionalOf(t, id);
    MergeCovers(disk.tombstones, cli.current.tombstones, t);
    var m :| m in Merge(disk.tombstones, cli.current.tombstones) && m.id == t.id && !Below(RankOf(m), RankOf(t));
    assert !Consumed(m, f.applied);
    assert m in f.tombstones && IsProvisionalOf(m, id);
  }

  lemma StepKeepsPending(s: System, step: Step, pid: nat, id: KeyId)
    requires Enabled(s, step) && Pends(s, pid, id) && step != CliExit(pid)
    ensures Pends(Next(s, step), pid, id)
  {
    match step
    case CliRetire(p, r) => MintHolds(s.clis[p].current.tombstones, r.id, r.at, r.reason, id);
    case _ =>
  }

  lemma {:induction false} StillPends(states: seq<System>, steps: seq<Step>, i: nat, j: nat, pid: nat, id: KeyId)
    requires Run(states, steps) && i <= j < |states| && Pends(states[i], pid, id)
    requires forall k :: i <= k < j ==> steps[k] != CliExit(pid)
    ensures Pends(states[j], pid, id)
    decreases j - i
  {
    if i < j {
      StillPends(states, steps, i, j - 1, pid, id);
      assert Follows(states, steps, j - 1);
      StepKeepsPending(states[j - 1], steps[j - 1], pid, id);
    }
  }

  lemma SaveNumbers(s: System, pid: nat, id: KeyId) returns (gen: nat)
    requires Inv(s) && Enabled(s, CliPersist(pid)) && Pends(s, pid, id)
    ensures NewlyNumbered(s, Next(s, CliPersist(pid)), id, gen)
  {
    JoinedOk(s.disk, s.clis[pid], s.retired);
    JoinedHolds(s.disk, s.clis[pid], id);
    gen := WriteNumbers(s, Joined(s.disk, s.clis[pid].baseline, s.clis[pid].current), id);
  }

  /** A process that retires an identity and later saves has it numbered there above everything recorded before the
      save, whatever the daemon and the other processes did in between. */
  lemma RetirementIsNumbered(states: seq<System>, steps: seq<Step>, i: nat, j: nat, pid: nat, r: Retire)
    returns (gen: nat)
    requires Run(states, steps) && i < j < |steps| && steps[i] == CliRetire(pid, r) && steps[j] == CliPersist(pid)
    requires forall k :: i < k < j ==> steps[k] != CliExit(pid)
    ensures NewlyNumbered(states[j], states[j + 1], r.id, gen)
  {
    var next := i + 1;
    assert Follows(states, steps, i) && Follows(states, steps, j);
    MintHolds(states[i].clis[pid].current.tombstones, r.id, r.at, r.reason, r.id);
    StillPends(states, steps, next, j, pid, r.id);
    RunInv(states, steps, j);
    gen := SaveNumbers(states[j], pid, r.id);
  }

  /** A process that leaves without saving leaves nothing behind. */
  lemma UnsavedLeavesNothing(s: System, pid: nat, r: Retire)
    requires pid !in s.clis
    ensures Leads(s, [CliStart(pid), CliRetire(pid, r), CliExit(pid)], s)
  {
    var s1 := Next(s, CliStart(pid));
    var s2 := Next(s1, CliRetire(pid, r));
    OneMoreStep(s, [], s, CliStart(pid));
    OneMoreStep(s, [CliStart(pid)], s1, CliRetire(pid, r));
    OneMoreStep(s, [CliStart(pid), CliRetire(pid, r)], s2, CliExit(pid));
    assert Next(s2, CliExit(pid)).clis == s.clis;
  }

  // --------------------------------------------------------------- a daemon learns of it

  /** The store has lost those identities and nothing else; the sidecar is that store if it was saved. */
  ghost predicate LosesOnly(was: System, now: System, ids: seq<KeyId>, saved: bool) {
    && was.daemon.Some? && now.daemon.Some?
    && (forall id :: id in ids ==> id !in now.daemon.value.store.entries)
    && (forall id :: id !in ids ==> SameFor(was.daemon.value.store, now.daemon.value.store, id))
    && now.sidecar == (if saved then now.daemon.value.store else was.sidecar)
  }

  /** The daemon's directory answers for those retirements. */
  ghost predicate Knows(d: Daemon, retired: set<Retirement>) {
    retired <= d.seen && forall r :: r in retired ==> r.gen <= d.mem.routeGen && Answers(d.mem, r)
  }

  ghost predicate Answers(f: GenFile, r: Retirement) { r.gen <= f.applied || Covered(f.tombstones, r) }

  lemma {:induction false} ForgetAllLoses(store: Store, ids: seq<KeyId>)
    ensures forall id :: id in ids ==> id !in ForgetAll(store, ids).entries
    ensures forall id :: id !in ids ==> SameFor(store, ForgetAll(store, ids), id)
    decreases |ids|
  {
    if ids != [] {
      ForgetAllLoses(Forget(store, ids[0]).store, ids[1..]);
      ForgetAllFacts(Forget(store, ids[0]).store, ids[1..]);
    }
  }

  /** Adopting a file teaches the daemon every retirement the file answered for. */
  lemma AdoptKnows(s: System, incoming: Read, ids: seq<KeyId>, saved: bool, retired: set<Retirement>)
    requires Inv(s) && Running(s, Serving) && ReadOk(incoming, s.disk, s.retired)
    requires retired <= incoming.seen && forall r :: r in retired ==> Answers(incoming.file, r)
    ensures var t := AdoptInto(s, s.daemon.value, incoming, ids, saved);
            LosesOnly(s, t, ids, saved) && Knows(t.daemon.value, retired)
  {
    var t := AdoptInto(s, s.daemon.value, incoming, ids, saved);
    ForgetAllLoses(s.daemon.value.store, ids);
    forall r | r in retired ensures r.gen <= t.daemon.value.mem.routeGen && Answers(t.daemon.value.mem, r) {
      AdoptAnswers(s.daemon.value.mem, incoming.file, r);
    }
  }

  lemma AdoptAnswers(mem: GenFile, incoming: GenFile, r: Retirement)
    requires incoming.applied <= CEILING && Answers(incoming, r)
    requires r.gen <= incoming.routeGen <= CEILING
    ensures r.gen <= Adopt(mem, incoming).routeGen && Answers(Adopt(mem, incoming), r)
  {
    if r.gen > Adopt(mem, incoming).applied {
      var t :| t in incoming.tombstones && t.id == r.id && t.gen.Finalized? && r.gen <= t.gen.n;
      assert t in Adopt(mem, incoming).tombstones;
    }
  }

  lemma PageNumbers(s: System, rs: seq<Retire>, id: KeyId) returns (gen: nat)
    requires Inv(s) && HasRoom(PageDraft(s.disk, rs)) && exists r :: r in rs && r.id == id
    ensures NewlyNumbered(s, Write(s, Finalize(PageDraft(s.disk, rs))), id, gen)
  {
    PageDraftOk(s.disk, s.retired, rs);
    MintAllHolds(Load(s.disk).tombstones, rs, id);
    gen := WriteNumbers(s, PageDraft(s.disk, rs), id);
  }

  lemma PageTeaches(s: System, rs: seq<Retire>, ids: seq<KeyId>, saved: bool)
    requires Inv(s) && Running(s, Serving) && HasRoom(PageDraft(s.disk, rs))
    ensures var written := Write(s, Finalize(PageDraft(s.disk, rs)));
            var t := AdoptInto(written, s.daemon.value, Read(written.disk, written.retired), ids, saved);
            LosesOnly(s, t, ids, saved) && Knows(t.daemon.value, t.retired)
  {
    PageDraftOk(s.disk, s.retired, rs);
    WriteKeeps(s, PageDraft(s.disk, rs));
    var written := Write(s, Finalize(PageDraft(s.disk, rs)));
    CurrentReadOk(written);
    AdoptKnows(written, Read(written.disk, written.retired), ids, saved, written.retired);
  }

  /** A page change numbers each identity it retires, and the daemon that made it knows, and has dropped what it
      supersedes. */
  lemma PageRetirementIsKnown(states: seq<System>, steps: seq<Step>, i: nat, r: Retire) returns (gen: nat)
    requires Run(states, steps) && i < |steps| && steps[i].PageChange? && r in steps[i].retires
    ensures NewlyNumbered(states[i], states[i + 1], r.id, gen)
    ensures LosesOnly(states[i], states[i + 1], steps[i].superseded, steps[i].saved)
    ensures Knows(states[i + 1].daemon.value, states[i + 1].retired)
  {
    assert Follows(states, steps, i);
    RunInv(states, steps, i);
    gen := PageNumbers(states[i], steps[i].retires, r.id);
    PageTeaches(states[i], steps[i].retires, steps[i].superseded, steps[i].saved);
  }

  /** The steps that end or redirect a reload once it has read the file. */
  predicate EndsReload(step: Step) { step.ReloadRead? || step.ReloadAdopt? || step.PageChange? || step.Crash? }

  ghost predicate Reloading(s: System, rd: Read) { Running(s, Serving) && s.daemon.value.reload == Some(rd) }

  lemma {:induction false} StillReloading(states: seq<System>, steps: seq<Step>, i: nat, j: nat, rd: Read)
    requires Run(states, steps) && i <= j < |states| && Reloading(states[i], rd)
    requires forall k :: i <= k < j ==> !EndsReload(steps[k])
    ensures Reloading(states[j], rd)
    decreases j - i
  {
    if i < j {
      StillReloading(states, steps, i, j - 1, rd);
      assert Follows(states, steps, j - 1) && !EndsReload(steps[j - 1]);
    }
  }

  /** A reload teaches the daemon every retirement numbered when it read the file, however late it adopts it, and drops
      the superseded identities. */
  lemma ReloadKnows(states: seq<System>, steps: seq<Step>, i: nat, j: nat)
    requires Run(states, steps) && i < j < |steps| && steps[i].ReloadRead? && steps[j].ReloadAdopt?
    requires forall k :: i < k < j ==> !EndsReload(steps[k])
    ensures LosesOnly(states[j], states[j + 1], steps[j].superseded, steps[j].saved)
    ensures Knows(states[j + 1].daemon.value, states[i].retired) && states[j + 1].daemon.value.reload.None?
  {
    var (s, next, rd) := (states[i], i + 1, Read(states[i].disk, states[i].retired));
    assert Follows(states, steps, i) && Follows(states, steps, j);
    StillReloading(states, steps, next, j, rd);
    RunInv(states, steps, i);
    RunInv(states, steps, j);
    AdoptKnows(states[j], rd, steps[j].superseded, steps[j].saved, s.retired);
  }

  /** What a reload adopts was read since the last page change, adoption and crash: never a copy older than the daemon's
      own. */
  lemma {:induction false} AdoptedReadIsFresh(states: seq<System>, steps: seq<Step>, j: nat) returns (i: nat)
    requires Run(states, steps) && j < |states|
    requires states[j].daemon.Some? && states[j].daemon.value.reload.Some?
    ensures i < j && steps[i].ReloadRead? && forall k :: i < k < j ==> !EndsReload(steps[k])
  {
    assert j > 0;
    assert Follows(states, steps, j - 1);
    if steps[j - 1].ReloadRead? {
      i := j - 1;
    } else {
      i := AdoptedReadIsFresh(states, steps, j - 1);
    }
  }

  // -------------------------------------------------------------------- a boot answers it

  /** This boot is under way, or over and serving. */
  ghost predicate Booted(s: System, boot: Read) { s.daemon.Some? && s.daemon.value.boot == boot }

  lemma {:induction false} SameBoot(states: seq<System>, steps: seq<Step>, i: nat, j: nat, boot: Read)
    requires Run(states, steps) && i <= j < |states| && Booted(states[i], boot)
    requires forall k :: i <= k < j ==> !steps[k].Crash?
    ensures Booted(states[j], boot)
    ensures states[i].daemon.value.phase in {Written(true), Serving} ==>
              states[j].daemon.value.phase in {Written(true), Serving}
    decreases j - i
  {
    if i < j {
      SameBoot(states, steps, i, j - 1, boot);
      assert Follows(states, steps, j - 1) && !steps[j - 1].Crash?;
    }
  }

  /** Nothing claimed before the retirement is tracked, here or on disk, and no tombstone of that age is left to act
      on. */
  ghost predicate Answered(s: System, r: Retirement) {
    && s.daemon.Some? && s.daemon.value.phase == Serving
    && Clean(s.daemon.value.store, r) && Clean(s.sidecar, r)
    && r.gen <= s.disk.applied
    && forall t :: t in s.disk.tombstones && t.gen.Finalized? ==> r.gen < t.gen.n
  }

  lemma ConsumeAnswers(was: System, s: System, r: Retirement)
    requires Inv(was) && Inv(s) && Later(was, s) && r in was.retired
    requires Running(s, Written(true)) && s.daemon.value.boot == Read(Load(was.disk), was.retired)
    ensures Answered(Next(s, BootConsume(true)), r)
  {
    var t := Next(s, BootConsume(true));
    LoadIsDraft(was.disk, was.retired);
    BootConsumeKeeps(s, true);
    assert s.daemon.value.boot.file.tombstones == [] ==> !Covered(was.disk.tombstones, r);
    assert Clean(t.sidecar, r) && Clean(t.daemon.value.store, r);
  }

  /** A boot whose sidecar write and state write land answers every retirement numbered before it loaded the directory,
      whatever the other processes write while it runs. */
  lemma BootAnswers(states: seq<System>, steps: seq<Step>, i: nat, j: nat, k: nat, r: Retirement)
    requires Run(states, steps) && i < j < k < |steps|
    requires steps[i] == BootDirectory && steps[j] == BootWrite(true) && steps[k] == BootConsume(true)
    requires forall m :: i < m < k ==> !steps[m].Crash?
    requires r in states[i].retired
    ensures Answered(states[k + 1], r) && r in states[k + 1].daemon.value.boot.seen
  {
    var (first, mid, boot) := (i + 1, j + 1, Read(Load(states[i].disk), states[i].retired));
    assert Follows(states, steps, i) && Follows(states, steps, j) && Follows(states, steps, k);
    SameBoot(states, steps, first, j, boot);
    SameBoot(states, steps, mid, k, boot);
    RunInv(states, steps, i);
    RunOrders(states, steps, i, k);
    RunInv(states, steps, k);
    ConsumeAnswers(states[i], states[k], r);
  }

  /** A crash, and the next daemon with its directory and its store loaded. */
  lemma Reloaded(s: System) returns (t: System)
    requires Inv(s) && s.daemon.Some?
    ensures Leads(s, [Crash, BootDirectory, BootStore], t)
    ensures t.clis == s.clis && t.disk == s.disk && Running(t, StoreLoaded) && t.daemon.value.store == s.sidecar
    ensures forall x :: x in t.daemon.value.boot.file.tombstones <==> x in s.disk.tombstones
  {
    ThreeSteps(s, [Crash, BootDirectory, BootStore]);
    LoadIsDraft(s.disk, s.retired);
    t := Next(Next(Next(s, Crash), BootDirectory), BootStore);
  }

  lemma Reconciled(s: System, saves: bool, durable: bool, consumes: bool) returns (t: System)
    requires Running(s, StoreLoaded)
    ensures Leads(s, [BootApply(saves), BootWrite(durable), BootConsume(consumes)], t)
    ensures t.clis == s.clis && Running(t, Serving)
    ensures t.daemon.value.store == ApplyTombstones(s.daemon.value.store, s.daemon.value.boot.file.tombstones)
  {
    var s1 := Next(s, BootApply(saves));
    assert s1.daemon.value.phase.Applied?;
    var s2 := Next(s1, BootWrite(durable));
    assert s2.daemon.value.phase.Written?;
    ThreeSteps(s, [BootApply(saves), BootWrite(durable), BootConsume(consumes)]);
    t := Next(s2, BootConsume(consumes));
  }

  lemma {:induction false} LeadsOn(s: System, a: seq<Step>, m: System, b: seq<Step>, t: System)
    requires Leads(s, a, m) && Leads(m, b, t)
    ensures Leads(s, a + b, t)
    decreases |a|
  {
    if a == [] {
      assert a + b == b;
    } else {
      assert (a + b)[1..] == a[1..] + b;
      LeadsOn(Next(s, a[0]), a[1..], m, b, t);
    }
  }

  /** From any state with a daemon, a crash and a restart run through: the daemon serves again, whichever writes land.
      It tracks what the sidecar held and no tombstone on file outranks. */
  lemma CrashThenRestart(s: System, saves: bool, durable: bool, consumes: bool) returns (t: System)
    requires Inv(s) && s.daemon.Some?
    ensures Leads(s, [Crash, BootDirectory, BootStore]
                  + [BootApply(saves), BootWrite(durable), BootConsume(consumes)], t)
    ensures Running(t, Serving) && t.clis == s.clis
    ensures forall id :: id in t.daemon.value.store.entries <==> id in s.sidecar.entries && !Outranked(s, id)
    ensures forall id :: id in t.daemon.value.store.entries ==>
              t.daemon.value.store.entries[id] == s.sidecar.entries[id]
  {
    var m := Reloaded(s);
    t := Reconciled(m, saves, durable, consumes);
    LeadsOn(s, [Crash, BootDirectory, BootStore], m,
            [BootApply(saves), BootWrite(durable), BootConsume(consumes)], t);
    var loaded := m.daemon.value.boot.file.tombstones;
    forall id
      ensures id in t.daemon.value.store.entries <==> id in s.sidecar.entries && !Outranked(s, id)
      ensures id in t.daemon.value.store.entries ==> t.daemon.value.store.entries[id] == s.sidecar.entries[id]
    {
      ApplyForgets(s.sidecar, loaded, id);
    }
  }

  /** Some tombstone on file outranks what the sidecar holds for its identity. */
  ghost predicate Outranked(s: System, id: KeyId) {
    id in s.sidecar.entries && exists x :: x in s.disk.tombstones && x.id == id && Outranks(x, s.sidecar.entries[id])
  }

  // ----------------------------------------------------------------- what the daemon tracks

  /** The steps that leave both the store and the sidecar of a daemon alone, or end it. */
  predicate LeavesSidecar(step: Step) {
    step.CliStart? || step.CliRetire? || step.CliPersist? || step.CliExit? || step.ReloadRead? || step.BootDirectory?
    || step.Crash?
  }

  lemma {:induction false} SameSidecar(states: seq<System>, steps: seq<Step>, i: nat, j: nat)
    requires Run(states, steps) && i <= j < |states|
    requires forall k :: i <= k < j ==> LeavesSidecar(steps[k])
    ensures states[j].sidecar == states[i].sidecar
    decreases j - i
  {
    if i < j {
      SameSidecar(states, steps, i, j - 1);
      assert Follows(states, steps, j - 1) && LeavesSidecar(steps[j - 1]);
    }
  }

  /** What a retried save wrote, the next boot after a crash loads. */
  lemma RetriedSaveIsLoaded(states: seq<System>, steps: seq<Step>, i: nat, j: nat)
    requires Run(states, steps) && i < j < |steps| && steps[i] == RetrySidecar && steps[j] == BootStore
    requires forall k :: i < k < j ==> LeavesSidecar(steps[k])
    ensures states[i].daemon.Some? && states[j + 1].daemon.Some?
    ensures states[j + 1].daemon.value.store == states[i].daemon.value.store
  {
    var next := i + 1;
    assert Follows(states, steps, i) && Follows(states, steps, j);
    SameSidecar(states, steps, next, j);
  }

  /** The new stamp is the daemon's counter, and is on record with every retirement the daemon knew. */
  ghost predicate StampedNow(was: Daemon, now: System, id: KeyId) {
    && now.daemon.Some? && id in now.daemon.value.store.entries
    && now.daemon.value.store.entries[id].gen == Some(was.mem.routeGen)
    && Claim(id, was.mem.routeGen, was.seen) in now.claims
  }

  /** The sidecar is what the daemon now holds, or what it was. */
  ghost predicate SavedOrNot(was: System, now: System, written: bool) {
    now.daemon.Some? && now.sidecar == if written then now.daemon.value.store else was.sidecar
  }

  /** A differing record seen by a serving daemon leaves no usable key, under a new stamp, on disk too if it is
      saved. */
  lemma DisputeReachesDisk(s: System, id: KeyId, env: Envelope, now: int, saved: bool)
    requires Running(s, Serving) && Offers(env, id)
    requires var e := s.daemon.value.store.entries; id in e && !e[id].conflict && e[id].sealKey != env.record.sealKey
    ensures var t := Next(s, Discover(id, env, now, saved));
            && StampedNow(s.daemon.value, t, id) && SavedOrNot(s, t, saved)
            && RecordState(t.daemon.value.store, id) == RecordConflict
            && OnlyTouches(s.daemon.value.store, t.daemon.value.store, id)
  {
    var d := s.daemon.value;
    OtherKeyIsAConflict(d.store, MAX_ENTRIES, id, env, now, Some(d.mem.routeGen));
  }

  /** An approval of a carried key makes it usable under a new stamp, which says what the daemon knew. */
  lemma ApprovalIsStamped(s: System, id: KeyId, expected: Option<Key>, now: int, saved: bool)
    requires Running(s, Serving) && RecordState(s.daemon.value.store, id) == RecordCarried
    requires var k := s.daemon.value.store.entries[id].sealKey; k.Some? && (expected.Some? ==> expected == k)
    ensures var t := Next(s, Bless(id, expected, now, saved));
            && StampedNow(s.daemon.value, t, id) && SavedOrNot(s, t, saved)
            && RecordSealKey(t.daemon.value.store, id) == s.daemon.value.store.entries[id].sealKey
            && OnlyTouches(s.daemon.value.store, t.daemon.value.store, id)
  {
    var d := s.daemon.value;
    ApprovalIff(d.store, MAX_ENTRIES, id, expected, now, Some(d.mem.routeGen));
  }

  /** A forgotten identity is gone from the store, and from the sidecar once that is saved; no other is touched. */
  lemma DropIsSaved(s: System, id: KeyId, saved: bool)
    requires Running(s, Serving)
    ensures var t := Next(s, Drop(id, saved));
            && SavedOrNot(s, t, saved && id in s.daemon.value.store.entries)
            && RecordState(t.daemon.value.store, id) == NoRecord
            && OnlyTouches(s.daemon.value.store, t.daemon.value.store, id)
  {
    ForgetDropsOne(s.daemon.value.store, id);
  }
}
