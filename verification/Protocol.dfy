/** The retirement protocol as a transition system: one state file, one sidecar, at most one daemon,
    any number of command-line processes. Every lock-protected write is one step; anything may crash. */
module Protocol {
  import opened Wrappers
  import opened Keys
  import opened Tombstones
  import opened KeyStore
  import opened Generations

  /** A retirement the file has numbered. */
  datatype Retirement = Retirement(id: KeyId, gen: nat)

  /** History: a Tier-1 claim was stamped `gen` by a daemon that had loaded or adopted `seen`. */
  datatype Claim = Claim(id: KeyId, gen: nat, seen: set<Retirement>)

  datatype Cli = Cli(baseline: GenFile, current: GenFile)

  /** A file as read earlier, with the retirements it reflected. */
  datatype Read = Read(file: GenFile, seen: set<Retirement>)

  /** Boot: directory loaded, store loaded, tombstones applied, sidecar written, then serving. */
  datatype Phase = DirLoaded | StoreLoaded | Applied(dropped: bool) | Written(durably: bool) | Serving

  datatype Daemon = Daemon(phase: Phase, boot: Read, mem: GenFile, seen: set<Retirement>,
                           store: Store, reload: Option<Read>)

  datatype System = System(disk: GenFile, sidecar: Store, daemon: Option<Daemon>, clis: map<nat, Cli>,
                           retired: set<Retirement>, claims: set<Claim>)

  const MAX_ENTRIES: nat := 4096

  datatype Step =
    | CliStart(pid: nat)
    | CliRetire(pid: nat, retire: Retire)
    | CliPersist(pid: nat)
    | CliExit(pid: nat)
    | PageChange(retires: seq<Retire>, superseded: seq<KeyId>, saved: bool)
    | ReloadRead
    | ReloadAdopt(superseded: seq<KeyId>, saved: bool)
    | BootDirectory
    | BootStore
    | BootApply(saved: bool)
    | BootWrite(ok: bool)
    | BootConsume(ok: bool)
    | Discover(target: KeyId, env: Envelope, now: int, saved: bool)
    | Bless(target: KeyId, expected: Option<Key>, now: int, saved: bool)
    | Drop(target: KeyId, saved: bool)
    | RetrySidecar
    | Crash

  // -------------------------------------------------------------------------- steps

  function Numbered(ts: seq<Tombstone>): set<Retirement> {
    set t | t in ts && t.gen.Finalized? :: Retirement(t.id, t.gen.n)
  }

  /** A page change starts from what is on disk, inside the lock. */
  function PageDraft(disk: GenFile, rs: seq<Retire>): GenFile {
    var loaded := Load(disk);
    loaded.(tombstones := MintAll(loaded.tombstones, rs))
  }

  function Write(s: System, file: GenFile): System {
    s.(disk := file, retired := s.retired + Numbered(file.tombstones))
  }

  function ForgetAll(store: Store, ids: seq<KeyId>): Store
    decreases |ids|
  {
    if ids == [] then store else ForgetAll(Forget(store, ids[0]).store, ids[1..])
  }

  function Save(s: System, store: Store, saved: bool): System {
    if saved then s.(sidecar := store) else s
  }

  function AdoptInto(s: System, d: Daemon, incoming: Read, ids: seq<KeyId>, saved: bool): System {
    var store := ForgetAll(d.store, ids);
    Save(s.(daemon := Some(d.(mem := Adopt(d.mem, incoming.file), seen := d.seen + incoming.seen,
                              store := store, reload := None))), store, saved)
  }

  /** The claims a daemon's operation has just made: entries whose stamp or standing changed. */
  function Stamped(d: Daemon, after: Store): set<Claim> {
    set id | id in after.entries && (id !in d.store.entries || d.store.entries[id] != after.entries[id])
          && after.entries[id].gen == Some(d.mem.routeGen) :: Claim(id, d.mem.routeGen, d.seen)
  }

  function Operate(s: System, d: Daemon, after: Store, saved: bool): System {
    Save(s.(daemon := Some(d.(store := after)), claims := s.claims + Stamped(d, after)), after, saved)
  }

  predicate Running(s: System, phase: Phase) { s.daemon.Some? && s.daemon.value.phase == phase }

  predicate Enabled(s: System, step: Step) {
    match step
    case CliStart(pid) => pid !in s.clis
    case CliRetire(pid, _) => pid in s.clis
    case CliPersist(pid) => pid in s.clis && HasRoom(Joined(s.disk, s.clis[pid].baseline, s.clis[pid].current))
    case CliExit(pid) => pid in s.clis
    case PageChange(rs, _, _) => Running(s, Serving) && HasRoom(PageDraft(s.disk, rs))
    case ReloadAdopt(_, _) => Running(s, Serving) && s.daemon.value.reload.Some?
    case BootDirectory => s.daemon.None?
    case BootStore => Running(s, DirLoaded)
    case BootApply(_) => Running(s, StoreLoaded)
    case BootWrite(_) => s.daemon.Some? && s.daemon.value.phase.Applied?
    case BootConsume(_) => s.daemon.Some? && s.daemon.value.phase.Written?
    case Crash => s.daemon.Some?
    case _ => Running(s, Serving)
  }

  function Next(s: System, step: Step): System
    requires Enabled(s, step)
  {
    match step
    case CliStart(pid) =>
      var loaded := Load(s.disk);
      s.(clis := s.clis[pid := Cli(loaded, loaded)])
    case CliRetire(pid, r) =>
      var cli := s.clis[pid];
      var ts := Mint(cli.current.tombstones, r.id, r.at, r.reason);
      s.(clis := s.clis[pid := cli.(current := cli.current.(tombstones := ts))])
    case CliPersist(pid) => Write(s, Reconcile(s.disk, s.clis[pid].baseline, s.clis[pid].current))
    case CliExit(pid) => s.(clis := s.clis - {pid})
    case PageChange(rs, ids, saved) =>
      var s' := Write(s, Finalize(PageDraft(s.disk, rs)));
      AdoptInto(s', s'.daemon.value, Read(s'.disk, s'.retired), ids, saved)
    case ReloadRead => s.(daemon := Some(s.daemon.value.(reload := Some(Read(s.disk, s.retired)))))
    case ReloadAdopt(ids, saved) => AdoptInto(s, s.daemon.value, s.daemon.value.reload.value, ids, saved)
    case BootDirectory =>
      var loaded := Load(s.disk);
      s.(daemon := Some(Daemon(DirLoaded, Read(loaded, s.retired), loaded, s.retired, EMPTY, None)))
    case BootStore => s.(daemon := Some(s.daemon.value.(phase := StoreLoaded, store := s.sidecar)))
    case BootApply(saved) =>
      var d := s.daemon.value;
      var store := ApplyTombstones(d.store, d.boot.file.tombstones);
      var dropped := store.entries.Keys != d.store.entries.Keys;
      Save(s.(daemon := Some(d.(phase := Applied(dropped), store := store))), store, saved && dropped)
    case BootWrite(ok) =>
      var d := s.daemon.value;
      var needed := d.phase.dropped || Matches(d.store, d.boot.file.tombstones);
      Save(s.(daemon := Some(d.(phase := Written(needed ==> ok)))), d.store, needed && ok)
    case BootConsume(ok) =>
      var d := s.daemon.value;
      var (pending, through) := (d.boot.file.tombstones, d.boot.file.routeGen);
      if d.phase.durably && pending != [] && ok then
        s.(disk := Consume(s.disk, pending, through),
           daemon := Some(d.(phase := Serving, mem := MarkApplied(d.mem, through))))
      else s.(daemon := Some(d.(phase := Serving)))
    case Discover(target, env, now, saved) =>
      var d := s.daemon.value;
      var r := Observe(d.store, MAX_ENTRIES, target, env, now, Some(d.mem.routeGen));
      Operate(s, d, r.store, saved && !r.persisted.Nothing?)
    case Bless(target, expected, now, saved) =>
      var d := s.daemon.value;
      var r := Approve(d.store, target, expected, now, Some(d.mem.routeGen));
      Operate(s, d, r.store, saved && !r.persisted.Nothing?)
    case Drop(target, saved) =>
      var d := s.daemon.value;
      var r := Forget(d.store, target);
      Operate(s, d, r.store, saved && !r.persisted.Nothing?)
    case RetrySidecar => s.(sidecar := s.daemon.value.store)
    case Crash => s.(daemon := None)
  }

  /** Whether some pending tombstone names a destination the store still tracks. */
  predicate Matches(store: Store, ts: seq<Tombstone>) { exists t :: t in ts && t.id in store.entries }

  /** A file and sidecar from before generations existed, or none at all; nothing running. */
  ghost predicate Init(s: System) {
    && s.disk.routeGen == 0 && s.disk.applied == 0
    && (forall t :: t in s.disk.tombstones ==> t.gen.Legacy?)
    && (forall id :: id in s.sidecar.entries ==> s.sidecar.entries[id].gen.None?)
    && s.daemon.None? && s.clis == map[] && s.retired == {} && s.claims == {}
  }

  /** A run: each state follows from the one before by some enabled step. */
  ghost predicate Run(states: seq<System>, steps: seq<Step>) {
    && |states| == |steps| + 1
    && Init(states[0])
    && forall i :: 0 <= i < |steps| ==> Follows(states, steps, i)
  }

  ghost predicate Follows(states: seq<System>, steps: seq<Step>, i: nat)
    requires i < |steps| && |states| == |steps| + 1
  {
    Enabled(states[i], steps[i]) && states[i + 1] == Next(states[i], steps[i])
  }
}
