/** Safety of the retirement protocol over every run: order of retirements, and no resurrection. */
module ProtocolSafety {
  import opened Wrappers
  import opened Keys
  import opened Tombstones
  import opened KeyStore
  import opened KeyStoreProofs
  import opened Generations
  import opened Protocol
  import opened ProtocolInvariant

  // -------------------------------------------------------------- command-line steps

  lemma CliStartKeeps(s: System, pid: nat)
    requires Inv(s) && Enabled(s, CliStart(pid))
    ensures Inv(Next(s, CliStart(pid)))
  {
    LoadIsDraft(s.disk, s.retired);
    assert CliOk(Cli(Load(s.disk), Load(s.disk)), s.disk, s.retired);
  }

  lemma CliRetireKeeps(s: System, pid: nat, r: Retire)
    requires Inv(s) && Enabled(s, CliRetire(pid, r))
    ensures Inv(Next(s, CliRetire(pid, r)))
  {
    MintMembers(s.clis[pid].current.tombstones, r.id, r.at, r.reason);
    assert CliOk(s.clis[pid], s.disk, s.retired);
  }

  lemma CliPersistKeeps(s: System, pid: nat)
    requires Inv(s) && Enabled(s, CliPersist(pid))
    ensures Inv(Next(s, CliPersist(pid)))
  {
    JoinedOk(s.disk, s.clis[pid], s.retired);
    WriteKeeps(s, Joined(s.disk, s.clis[pid].baseline, s.clis[pid].current));
  }

  // -------------------------------------------------------------------- daemon steps

  lemma {:induction false} ForgetAllFacts(store: Store, ids: seq<KeyId>)
    ensures forall id :: id in ForgetAll(store, ids).entries ==>
              id in store.entries && ForgetAll(store, ids).entries[id] == store.entries[id]
    decreases |ids|
  {
    if ids != [] { ForgetAllFacts(Forget(store, ids[0]).store, ids[1..]); }
  }

  /** A store that only lost entries. */
  ghost predicate Within(after: Store, before: Store) {
    forall id :: id in after.entries ==> id in before.entries && after.entries[id] == before.entries[id]
  }

  lemma ShrinkingKeeps(after: Store, before: Store, retired: set<Retirement>, n: nat, claims: set<Claim>)
    requires Within(after, before)
    ensures CleanThrough(before, retired, n) ==> CleanThrough(after, retired, n)
    ensures StampsOk(before, claims) ==> StampsOk(after, claims)
  {}

  lemma LowerIsClean(store: Store, retired: set<Retirement>, m: nat, n: nat)
    requires CleanThrough(store, retired, n) && m <= n
    ensures CleanThrough(store, retired, m)
  {}

  lemma AdoptKeeps(s: System, incoming: Read, ids: seq<KeyId>, saved: bool)
    requires Inv(s) && Running(s, Serving) && ReadOk(incoming, s.disk, s.retired)
    ensures Inv(AdoptInto(s, s.daemon.value, incoming, ids, saved))
  {
    var d := s.daemon.value;
    var after := ForgetAll(d.store, ids);
    ForgetAllFacts(d.store, ids);
    ShrinkingKeeps(after, d.store, s.retired, d.boot.file.routeGen, s.claims);
    LowerIsClean(after, s.retired, s.disk.applied, d.boot.file.routeGen);
    forall t | t in incoming.file.tombstones ensures GenOf(t) <= incoming.file.routeGen {}
    MaxGenBound(incoming.file.tombstones, incoming.file.routeGen);
    var d' := AdoptInto(s, d, incoming, ids, saved).daemon.value;
    assert d'.mem.routeGen == Max(d.mem.routeGen, incoming.file.routeGen);
    forall r | r in s.retired ensures r in d'.seen <==> r.gen <= d'.mem.routeGen {}
    assert DaemonOk(d', s.disk, if saved then after else s.sidecar, s.retired);
  }

  lemma CurrentReadOk(s: System)
    requires Inv(s)
    ensures ReadOk(Read(s.disk, s.retired), s.disk, s.retired)
  {
    forall t | t in s.disk.tombstones && t.gen.Finalized? ensures t.gen.n <= s.disk.routeGen {
      assert Retirement(t.id, t.gen.n) in s.retired;
    }
  }

  lemma PageChangeKeeps(s: System, rs: seq<Retire>, ids: seq<KeyId>, saved: bool)
    requires Inv(s) && Enabled(s, PageChange(rs, ids, saved))
    ensures Inv(Next(s, PageChange(rs, ids, saved)))
  {
    PageDraftOk(s.disk, s.retired, rs);
    WriteKeeps(s, PageDraft(s.disk, rs));
    var s' := Write(s, Finalize(PageDraft(s.disk, rs)));
    CurrentReadOk(s');
    AdoptKeeps(s', Read(s'.disk, s'.retired), ids, saved);
  }

  lemma ReloadReadKeeps(s: System)
    requires Inv(s) && Enabled(s, ReloadRead)
    ensures Inv(Next(s, ReloadRead))
  {
    CurrentReadOk(s);
    var d := Next(s, ReloadRead).daemon.value;
    assert DaemonOk(d, s.disk, s.sidecar, s.retired);
  }

  /** What a daemon operation may leave behind: old stamps, or the current one. */
  ghost predicate Restamped(d: Daemon, after: Store) {
    forall id :: id in after.entries ==>
      || after.entries[id].gen == Some(d.mem.routeGen)
      || (id in d.store.entries && after.entries[id].gen == d.store.entries[id].gen)
  }

  lemma StampedAreOk(d: Daemon, after: Store, claims: set<Claim>)
    requires Restamped(d, after) && StampsOk(d.store, claims)
    ensures StampsOk(after, claims + Stamped(d, after))
  {
    forall id | id in after.entries && after.entries[id].gen.Some?
      ensures exists c :: c in claims + Stamped(d, after) && c.id == id && c.gen == after.entries[id].gen.value
    {
      if id in d.store.entries && after.entries[id].gen == d.store.entries[id].gen {
        var c :| c in claims && c.id == id && c.gen == after.entries[id].gen.value;
      } else {
        assert Claim(id, d.mem.routeGen, d.seen) in Stamped(d, after);
      }
    }
  }

  lemma OperateKeeps(s: System, after: Store, saved: bool)
    requires Inv(s) && Running(s, Serving) && Restamped(s.daemon.value, after)
    ensures Inv(Operate(s, s.daemon.value, after, saved))
  {
    var d := s.daemon.value;
    var s' := Operate(s, d, after, saved);
    var n := d.boot.file.routeGen;
    StampedAreOk(d, after, s.claims);
    assert StampsOk(s.sidecar, s'.claims);
    forall r | r in s.retired && r.gen <= n ensures Clean(after, r) {
      assert Clean(d.store, r);
    }
    LowerIsClean(after, s.retired, s.disk.applied, n);
    assert DaemonOk(s'.daemon.value, s.disk, s'.sidecar, s.retired);
    assert ClaimsOk(s'.claims, s.disk, s.retired);
  }

  lemma ObserveRestamps(d: Daemon, target: KeyId, env: Envelope, now: int)
    ensures Restamped(d, Observe(d.store, MAX_ENTRIES, target, env, now, Some(d.mem.routeGen)).store)
  {}

  lemma OperationKeeps(s: System, step: Step)
    requires Inv(s) && Enabled(s, step) && (step.Discover? || step.Bless? || step.Drop?)
    ensures Inv(Next(s, step))
  {
    var d := s.daemon.value;
    var stamp := Some(d.mem.routeGen);
    match step
    case Discover(target, env, now, saved) =>
      var r := Observe(d.store, MAX_ENTRIES, target, env, now, stamp);
      ObserveRestamps(d, target, env, now);
      OperateKeeps(s, r.store, saved && !r.persisted.Nothing?);
    case Bless(target, expected, now, saved) =>
      var r := Approve(d.store, target, expected, now, stamp);
      OperateKeeps(s, r.store, saved && !r.persisted.Nothing?);
    case Drop(target, saved) =>
      var r := Forget(d.store, target);
      OperateKeeps(s, r.store, saved && !r.persisted.Nothing?);
  }

  lemma RetryKeeps(s: System)
    requires Inv(s) && Enabled(s, RetrySidecar)
    ensures Inv(Next(s, RetrySidecar))
  {
    var d := s.daemon.value;
    LowerIsClean(d.store, s.retired, s.disk.applied, d.boot.file.routeGen);
    assert DaemonOk(d, s.disk, d.store, s.retired);
  }

  // ---------------------------------------------------------------------- boot steps

  lemma BootDirectoryKeeps(s: System)
    requires Inv(s) && Enabled(s, BootDirectory)
    ensures Inv(Next(s, BootDirectory))
  {
    LoadIsDraft(s.disk, s.retired);
    CurrentReadOk(s);
    var d := Next(s, BootDirectory).daemon.value;
    forall r {:trigger Covered(d.boot.file.tombstones, r)} | r in s.retired && s.disk.applied < r.gen
      ensures Covered(d.boot.file.tombstones, r)
    {
      assert Covered(s.disk.tombstones, r);
      var t :| t in s.disk.tombstones && t.id == r.id && t.gen.Finalized? && r.gen <= t.gen.n;
      assert t in d.boot.file.tombstones;
    }
    assert DaemonOk(d, s.disk, s.sidecar, s.retired);
  }

  lemma BootStoreKeeps(s: System)
    requires Inv(s) && Enabled(s, BootStore)
    ensures Inv(Next(s, BootStore))
  {
    var d := Next(s, BootStore).daemon.value;
    assert DaemonOk(d, s.disk, s.sidecar, s.retired);
  }

  /** Applying the loaded tombstones clears every claim older than a retirement the boot knows of. */
  lemma ApplyCleans(s: System, r: Retirement)
    requires Inv(s) && Running(s, StoreLoaded) && r in s.retired && r.gen <= s.daemon.value.boot.file.routeGen
    ensures Clean(ApplyTombstones(s.daemon.value.store, s.daemon.value.boot.file.tombstones), r)
  {
    var d := s.daemon.value;
    var ts := d.boot.file.tombstones;
    ApplyForgets(d.store, ts, r.id);
    if r.gen <= s.disk.applied {
      assert Clean(s.sidecar, r);
    } else {
      assert Covered(ts, r);
      var t :| t in ts && t.id == r.id && t.gen.Finalized? && r.gen <= t.gen.n;
    }
  }

  lemma BootApplyKeeps(s: System, saved: bool)
    requires Inv(s) && Enabled(s, BootApply(saved))
    ensures Inv(Next(s, BootApply(saved)))
  {
    var d := s.daemon.value;
    var s' := Next(s, BootApply(saved));
    var after := s'.daemon.value.store;
    forall r | r in s.retired && r.gen <= d.boot.file.routeGen ensures Clean(after, r) { ApplyCleans(s, r); }
    forall id ensures id in after.entries ==> id in d.store.entries && after.entries[id] == d.store.entries[id] {
      ApplyForgets(d.store, d.boot.file.tombstones, id);
    }
    ShrinkingKeeps(after, d.store, s.retired, d.boot.file.routeGen, s.claims);
    LowerIsClean(after, s.retired, s.disk.applied, d.boot.file.routeGen);
    if after.entries.Keys == d.store.entries.Keys { assert after.entries == d.store.entries; }
    assert DaemonOk(s'.daemon.value, s'.disk, s'.sidecar, s'.retired);
  }

  lemma SameEntriesSameCleanliness(a: Store, b: Store, retired: set<Retirement>, n: nat)
    requires a.entries == b.entries && CleanThrough(a, retired, n)
    ensures CleanThrough(b, retired, n)
  {
    forall r | r in retired && r.gen <= n ensures Clean(b, r) { assert Clean(a, r); }
  }

  lemma BootWriteKeeps(s: System, ok: bool)
    requires Inv(s) && Enabled(s, BootWrite(ok))
    ensures Inv(Next(s, BootWrite(ok)))
  {
    var d := s.daemon.value;
    var n := d.boot.file.routeGen;
    var s' := Next(s, BootWrite(ok));
    if !d.phase.dropped { SameEntriesSameCleanliness(d.store, s.sidecar, s.retired, n); }
    LowerIsClean(d.store, s.retired, s.disk.applied, n);
    assert s'.sidecar == d.store || s'.sidecar == s.sidecar;
    assert s'.daemon.value.phase.durably ==> CleanThrough(s'.sidecar, s.retired, n);
    assert BootOk(s'.daemon.value, s.disk, s.retired);
    assert DaemonOk(s'.daemon.value, s'.disk, s'.sidecar, s'.retired);
  }

  /** Boot consumes only what it processed: every survivor is numbered above the processed generation. */
  lemma ConsumeKeepsFile(s: System)
    requires Inv(s) && s.daemon.Some? && s.daemon.value.phase.Written?
    ensures var d := s.daemon.value;
            var next := Consume(s.disk, d.boot.file.tombstones, d.boot.file.routeGen);
            next.applied == d.boot.file.routeGen && DiskOk(next, s.retired) && RetiredOk(next, s.retired)
  {
    var d := s.daemon.value;
    var (pending, n) := (d.boot.file.tombstones, d.boot.file.routeGen);
    var next := Consume(s.disk, pending, n);
    forall t | t in s.disk.tombstones && t.gen.Finalized? && t.gen.n <= n ensures Consumable(t, pending, n) {
      var r := Retirement(t.id, t.gen.n);
      assert r in s.retired && Covered(pending, r);
      assert Holds(pending, t.id);
    }
    forall r {:trigger Covered(next.tombstones, r)} | r in s.retired && n < r.gen
      ensures Covered(next.tombstones, r)
    {
      assert Covered(s.disk.tombstones, r);
      var t :| t in s.disk.tombstones && t.id == r.id && t.gen.Finalized? && r.gen <= t.gen.n;
      assert t in next.tombstones;
    }
  }

  lemma BootConsumeKeeps(s: System, ok: bool)
    requires Inv(s) && Enabled(s, BootConsume(ok))
    ensures Inv(Next(s, BootConsume(ok)))
  {
    var d := s.daemon.value;
    var s' := Next(s, BootConsume(ok));
    if s'.disk != s.disk { ConsumeKeepsFile(s); }
    forall pid | pid in s.clis ensures CliOk(s.clis[pid], s'.disk, s'.retired) {
      assert CliOk(s.clis[pid], s.disk, s.retired);
    }
    assert DaemonOk(s'.daemon.value, s'.disk, s'.sidecar, s'.retired);
  }

  lemma StepKeeps(s: System, step: Step)
    requires Inv(s) && Enabled(s, step)
    ensures Inv(Next(s, step))
  {
    match step
    case CliStart(pid) => CliStartKeeps(s, pid);
    case CliRetire(pid, r) => CliRetireKeeps(s, pid, r);
    case CliPersist(pid) => CliPersistKeeps(s, pid);
    case CliExit(pid) =>
    case PageChange(rs, ids, saved) => PageChangeKeeps(s, rs, ids, saved);
    case ReloadRead => ReloadReadKeeps(s);
    case ReloadAdopt(ids, saved) => AdoptKeeps(s, s.daemon.value.reload.value, ids, saved);
    case BootDirectory => BootDirectoryKeeps(s);
    case BootStore => BootStoreKeeps(s);
    case BootApply(saved) => BootApplyKeeps(s, saved);
    case BootWrite(ok) => BootWriteKeeps(s, ok);
    case BootConsume(ok) => BootConsumeKeeps(s, ok);
    case Discover(_, _, _, _) => OperationKeeps(s, step);
    case Bless(_, _, _, _) => OperationKeeps(s, step);
    case Drop(_, _) => OperationKeeps(s, step);
    case RetrySidecar => RetryKeeps(s);
    case Crash =>
  }

  lemma {:induction false} RunInv(states: seq<System>, steps: seq<Step>, i: nat)
    requires Run(states, steps) && i < |states|
    ensures Inv(states[i])
  {
    if i == 0 {
      InitInv(states[0]);
    } else {
      RunInv(states, steps, i - 1);
      assert Follows(states, steps, i - 1);
      StepKeeps(states[i - 1], steps[i - 1]);
    }
  }

  // ------------------------------------------------------------- order of retirements

  /** Counters did not fall, nothing retired was forgotten, and whatever was retired since is numbered
      strictly above everything the earlier file had recorded. */
  ghost predicate Later(a: System, b: System) {
    && a.disk.routeGen <= b.disk.routeGen && a.disk.applied <= b.disk.applied
    && a.retired <= b.retired
    && (forall r :: r in b.retired && r !in a.retired ==> a.disk.routeGen < r.gen)
  }

  lemma LaterIsTransitive(a: System, b: System, c: System)
    requires Later(a, b) && Later(b, c)
    ensures Later(a, c)
  {}

  lemma StepOrders(s: System, step: Step)
    requires Inv(s) && Enabled(s, step)
    ensures Later(s, Next(s, step))
  {
    match step
    case CliPersist(pid) =>
      JoinedOk(s.disk, s.clis[pid], s.retired);
      WriteOrders(Joined(s.disk, s.clis[pid].baseline, s.clis[pid].current), s.disk, s.retired);
    case PageChange(rs, _, _) =>
      PageDraftOk(s.disk, s.retired, rs);
      WriteOrders(PageDraft(s.disk, rs), s.disk, s.retired);
    case _ =>
  }

  lemma RunStepOrders(states: seq<System>, steps: seq<Step>, i: nat)
    requires Run(states, steps) && i < |steps|
    ensures Later(states[i], states[i + 1])
  {
    RunInv(states, steps, i);
    assert Follows(states, steps, i);
    StepOrders(states[i], steps[i]);
  }

  lemma {:induction false} RunOrders(states: seq<System>, steps: seq<Step>, i: nat, j: nat)
    requires Run(states, steps) && i <= j < |states|
    ensures Later(states[i], states[j])
    decreases j - i
  {
    if i < j {
      RunOrders(states, steps, i, j - 1);
      RunStepOrders(states, steps, j - 1);
      LaterIsTransitive(states[i], states[j - 1], states[j]);
    }
  }

  /** Over any interleaving: nothing provisional is ever on disk, the counters only grow and bound every
      tombstone, a consumed number never comes back, each number belongs to one retirement and lies above all
      earlier ones, and no daemon's counter is ahead of the file. */
  lemma RetirementOrder(states: seq<System>, steps: seq<Step>, i: nat, j: nat)
    requires Run(states, steps) && i <= j < |states|
    ensures forall t :: t in states[j].disk.tombstones ==> !t.gen.Provisional?
    ensures states[i].disk.routeGen <= states[j].disk.routeGen && states[i].disk.applied <= states[j].disk.applied
    ensures forall t :: t in states[j].disk.tombstones && t.gen.Finalized? ==>
              states[i].disk.applied < t.gen.n <= states[j].disk.routeGen
    ensures forall r, q :: r in states[i].retired && q in states[j].retired && q !in states[i].retired ==> r.gen < q.gen
    ensures forall r, q :: r in states[j].retired && q in states[j].retired && r.gen == q.gen ==> r == q
    ensures states[j].daemon.Some? ==> states[j].daemon.value.mem.routeGen <= states[j].disk.routeGen
  {
    RunOrders(states, steps, i, j);
    RunInv(states, steps, i);
    RunInv(states, steps, j);
    var (disk, retired) := (states[j].disk, states[j].retired);
    forall t | t in disk.tombstones && t.gen.Finalized? ensures t.gen.n <= disk.routeGen {
      assert Retirement(t.id, t.gen.n) in retired;
    }
  }

  // ------------------------------------------------------------------ no resurrection

  /** The retirements of an identity that were numbered before this daemon loaded the directory. */
  ghost predicate RetiredBeforeBoot(d: Daemon, r: Retirement, id: KeyId) { r in d.boot.seen && r.id == id }

  /** Whoever stamped the entry had loaded or adopted a state that already recorded the retirement. */
  ghost predicate StampSaw(s: System, id: KeyId, gen: nat, r: Retirement) {
    exists c :: c in s.claims && c.id == id && c.gen == gen && r in c.seen
  }

  /** A stamped entry survives the boot reconcile exactly when its stamper had seen every retirement of that
      identity numbered before the boot: approvals and retirements are ordered by knowledge, not by clocks. */
  lemma NoResurrection(states: seq<System>, steps: seq<Step>, i: nat, id: KeyId)
    requires Run(states, steps) && i < |steps| && steps[i].BootApply?
    requires states[i].daemon.Some?
    requires var store := states[i].daemon.value.store; id in store.entries && store.entries[id].gen.Some?
    ensures states[i + 1].daemon.Some?
    ensures var d := states[i].daemon.value;
            id in states[i + 1].daemon.value.store.entries <==>
              forall r :: RetiredBeforeBoot(d, r, id) ==> StampSaw(states[i], id, d.store.entries[id].gen.value, r)
  {
    var s := states[i];
    var d := s.daemon.value;
    var g := d.store.entries[id].gen.value;
    RunInv(states, steps, i);
    assert Follows(states, steps, i);
    ApplyForgets(d.store, d.boot.file.tombstones, id);
    forall r | RetiredBeforeBoot(d, r, id) ensures StampSaw(s, id, g, r) <==> r.gen <= g {
      var c :| c in s.claims && c.id == id && c.gen == g;
    }
    if id in states[i + 1].daemon.value.store.entries {
      forall r | RetiredBeforeBoot(d, r, id) ensures r.gen <= g { ApplyCleans(s, r); }
    } else {
      var t :| t in d.boot.file.tombstones && t.id == id && Outranks(t, d.store.entries[id]);
      assert RetiredBeforeBoot(d, Retirement(id, t.gen.n), id);
    }
  }

  /** From that step on, for as long as the daemon lives, everything it tracks is stamped by someone who knew
      of every retirement of that identity numbered before the boot. */
  lemma NothingRetiredIsServed(states: seq<System>, steps: seq<Step>, i: nat, id: KeyId, r: Retirement)
    requires Run(states, steps) && i < |states| && states[i].daemon.Some?
    requires !states[i].daemon.value.phase.DirLoaded? && !states[i].daemon.value.phase.StoreLoaded?
    requires id in states[i].daemon.value.store.entries
    requires RetiredBeforeBoot(states[i].daemon.value, r, id)
    ensures var e := states[i].daemon.value.store.entries[id];
            e.gen.Some? && StampSaw(states[i], id, e.gen.value, r)
  {
    var s := states[i];
    var d := s.daemon.value;
    RunInv(states, steps, i);
    assert Clean(d.store, r);
    var c :| c in s.claims && c.id == id && c.gen == d.store.entries[id].gen.value;
    assert r in c.seen;
  }

  /** Once a retirement is consumed, no sidecar ever written again holds a claim older than it. */
  lemma ConsumedStaysGone(states: seq<System>, steps: seq<Step>, i: nat, r: Retirement)
    requires Run(states, steps) && i < |states|
    requires r in states[i].retired && r.id in states[i].sidecar.entries
    requires forall t :: t in states[i].disk.tombstones && t.id == r.id ==> !t.gen.Finalized? || t.gen.n < r.gen
    ensures states[i].sidecar.entries[r.id].gen.Some? && r.gen <= states[i].sidecar.entries[r.id].gen.value
  {
    RunInv(states, steps, i);
    var s := states[i];
    assert !Covered(s.disk.tombstones, r);
    assert Clean(s.sidecar, r);
  }
}
