/** The daemon's boot, page changes and key operations as it performs them, each a run of protocol steps. */
module HailDaemon {
  import opened Wrappers
  import opened Keys
  import opened Tombstones
  import opened Generations
  import Peers
  import Directory
  import opened LiveDirectory
  import KeyStore
  import opened KeyStoreProofs
  import opened RoutedKeyStore
  import opened SealingFloor
  import opened Protocol
  import ProtocolInvariant
  import ProtocolSafety

  // --------------------------------------------------------------------- runs of steps

  /** One system follows from another by these steps, each enabled when it is taken. */
  ghost predicate Leads(s: System, steps: seq<Step>, t: System)
    decreases |steps|
  {
    if steps == [] then s == t else Enabled(s, steps[0]) && Leads(Next(s, steps[0]), steps[1..], t)
  }

  lemma {:induction false} OneMoreStep(s: System, steps: seq<Step>, t: System, step: Step)
    requires Leads(s, steps, t) && Enabled(t, step)
    ensures Leads(s, steps + [step], Next(t, step))
    decreases |steps|
  {
    if steps == [] {
      assert [step][1..] == [];
    } else {
      assert (steps + [step])[1..] == steps[1..] + [step];
      OneMoreStep(Next(s, steps[0]), steps[1..], t, step);
    }
  }

  lemma ThreeSteps(s: System, steps: seq<Step>)
    requires |steps| == 3 && Enabled(s, steps[0]) && Enabled(Next(s, steps[0]), steps[1])
    requires Enabled(Next(Next(s, steps[0]), steps[1]), steps[2])
    ensures Leads(s, steps, Next(Next(Next(s, steps[0]), steps[1]), steps[2]))
  {
    var t := Next(Next(Next(s, steps[0]), steps[1]), steps[2]);
    var (two, one) := (steps[1..], steps[2..]);
    assert two[1..] == one && one[1..] == [] && two[0] == steps[1] && one[0] == steps[2];
    assert Leads(t, [], t);
    assert Leads(Next(Next(s, steps[0]), steps[1]), one, t);
    assert Leads(Next(s, steps[0]), two, t);
  }

  /** So what these methods do keeps the retirement invariant, and orders retirements like any run. */
  lemma {:induction false} StepsStaySafe(s: System, steps: seq<Step>, t: System)
    requires ProtocolInvariant.Inv(s) && Leads(s, steps, t)
    ensures ProtocolInvariant.Inv(t) && ProtocolSafety.Later(s, t)
    decreases |steps|
  {
    if steps != [] {
      ProtocolSafety.StepKeeps(s, steps[0]);
      ProtocolSafety.StepOrders(s, steps[0]);
      StepsStaySafe(Next(s, steps[0]), steps[1..], t);
      ProtocolSafety.LaterIsTransitive(s, Next(s, steps[0]), t);
    }
  }

  // ----------------------------------------------------------- retirements of a change

  /** The retirement one mutation mints. */
  function RetireOf(h: Directory.Host, d: Directory.Dir, op: Directory.Op): seq<Retire> {
    if (op.ForgetPeer? || (op.RotateKey? && op.key.Some?)) && op.name in d.admitted then
      var id := KeyIdOf(d.admitted[op.name].publicKey);
      if id.Some? then [Retire(id.value, h.now, if op.ForgetPeer? then OnForget else OnRotate)] else []
    else []
  }

  function ApplyAll(h: Directory.Host, d: Directory.Dir, ops: seq<Directory.Op>): Directory.Dir
    decreases |ops|
  {
    if ops == [] then d else ApplyAll(h, Directory.Apply(h, d, ops[0]), ops[1..])
  }

  function Retires(h: Directory.Host, d: Directory.Dir, ops: seq<Directory.Op>): seq<Retire>
    decreases |ops|
  {
    if ops == [] then [] else RetireOf(h, d, ops[0]) + Retires(h, Directory.Apply(h, d, ops[0]), ops[1..])
  }

  lemma {:induction false} MintAllJoins(ts: seq<Tombstone>, a: seq<Retire>, b: seq<Retire>)
    ensures MintAll(ts, a + b) == MintAll(MintAll(ts, a), b)
    decreases |a|
  {
    if a == [] {
      assert a + b == b;
    } else {
      assert (a + b)[1..] == a[1..] + b;
      MintAllJoins(Mint(ts, a[0].id, a[0].at, a[0].reason), a[1..], b);
    }
  }

  lemma OpMints(h: Directory.Host, d: Directory.Dir, op: Directory.Op)
    ensures Directory.Apply(h, d, op).gens == d.gens.(tombstones := MintAll(d.gens.tombstones, RetireOf(h, d, op)))
  {
    var rs := RetireOf(h, d, op);
    if rs != [] { assert rs[1..] == []; }
  }

  /** A batch of mutations touches the retirement state by its retirements alone. */
  lemma {:induction false} ChangeMints(h: Directory.Host, d: Directory.Dir, ops: seq<Directory.Op>)
    ensures ApplyAll(h, d, ops).gens == d.gens.(tombstones := MintAll(d.gens.tombstones, Retires(h, d, ops)))
    decreases |ops|
  {
    if ops != [] {
      var next := Directory.Apply(h, d, ops[0]);
      OpMints(h, d, ops[0]);
      ChangeMints(h, next, ops[1..]);
      MintAllJoins(d.gens.tombstones, RetireOf(h, d, ops[0]), Retires(h, next, ops[1..]));
    }
  }

  // ---------------------------------------------------------------- what a boot consumes

  /** Some pending tombstone names a destination the store tracks. */
  predicate Concerns(pending: seq<Tombstone>, tracked: KeyStore.Store) {
    exists t :: t in pending && t.id in tracked.entries
  }

  /** The boot loaded a tombstone of this identity, and this one is not numbered above the boot's generation. */
  predicate Processed(boot: GenFile, t: Tombstone) {
    (exists p :: p in boot.tombstones && p.id == t.id) && !(t.gen.Finalized? && boot.routeGen < t.gen.n)
  }

  /** The file has lost what the boot processed and nothing else, and is marked through the boot's generation. */
  ghost predicate Cleared(boot: GenFile, was: GenFile, now: GenFile) {
    && (forall t :: t in now.tombstones <==> t in was.tombstones && !Processed(boot, t))
    && now.applied == (if was.applied < boot.routeGen then boot.routeGen else was.applied)
    && now.routeGen == was.routeGen
  }

  /** The live directory has lost every tombstone numbered through that generation, and keeps those without a number. */
  ghost predicate Marked(boot: GenFile, was: GenFile, now: GenFile) {
    && (forall t :: t in now.tombstones <==> t in was.tombstones && !(t.gen.Finalized? && t.gen.n <= now.applied))
    && Clamp(boot.routeGen) <= now.applied && was.applied <= now.applied
    && now.applied in {was.applied, Clamp(boot.routeGen)}
    && now.routeGen == was.routeGen
  }

  /** A boot that has something to process consumes it exactly when its state write lands, and its sidecar write too if
      the store tracked any identity concerned; otherwise the file and the live directory are as they were. */
  lemma BootConsumes(s: System, saves: bool, durable: bool, consumes: bool)
    requires Running(s, StoreLoaded)
    ensures var s1 := Next(s, BootApply(saves));
            Enabled(s1, BootWrite(durable))
            && var s2 := Next(s1, BootWrite(durable));
            Enabled(s2, BootConsume(consumes))
            && var t := Next(s2, BootConsume(consumes));
            var (boot, mem) := (s.daemon.value.boot.file, s.daemon.value.mem);
            && t.daemon.Some?
            && if boot.tombstones != [] && (durable || !Concerns(boot.tombstones, s.daemon.value.store)) && consumes
               then Cleared(boot, s.disk, t.disk) && Marked(boot, mem, t.daemon.value.mem)
               else t.disk == s.disk && t.daemon.value.mem == mem
  {
    var (d, pending) := (s.daemon.value, s.daemon.value.boot.file.tombstones);
    var after := KeyStore.ApplyTombstones(d.store, pending);
    ForgottenIffShrunk(d.store, pending);
    ConcernedIsDroppedOrLeft(d.store, pending);
    assert Next(s, BootApply(saves)).daemon.value
        == d.(phase := Applied(after.entries.Keys != d.store.entries.Keys), store := after);
  }

  lemma {:induction false} ConcernedIsDroppedOrLeft(s: KeyStore.Store, ts: seq<Tombstone>)
    ensures var after := KeyStore.ApplyTombstones(s, ts);
            Concerns(ts, s) <==> after.entries.Keys != s.entries.Keys || Matches(after, ts)
  {
    var after := KeyStore.ApplyTombstones(s, ts);
    ForgottenIffShrunk(s, ts);
    forall id | id in s.entries && id !in after.entries ensures exists t :: t in ts && t.id == id {
      DroppedByTombstone(s, ts, id);
    }
    if Concerns(ts, s) {
      var t :| t in ts && t.id in s.entries;
      assert t.id in after.entries ==> Matches(after, ts);
    }
  }

  lemma {:induction false} DroppedByTombstone(s: KeyStore.Store, ts: seq<Tombstone>, id: KeyId)
    requires id in s.entries && id !in KeyStore.ApplyTombstones(s, ts).entries
    ensures exists t :: t in ts && t.id == id
    decreases |ts|
  {
    if ts[0].id == id {
      assert ts[0] in ts;
    } else {
      DroppedByTombstone(KeyStore.ApplyOne(s, ts[0]), ts[1..], id);
    }
  }

  // --------------------------------------------------------------------------- daemon

  class HailDaemon {
    /** directory.json */
    var diskAdmitted: Peers.Admitted
    var diskCandidates: map<string, Directory.Offer>
    var disk: GenFile
    /** route-keys.json */
    var sidecar: KeyStore.Store
    const directory: PeerDirectory
    const store: RoutedKeyStore

    constructor (directory: PeerDirectory, store: RoutedKeyStore, admitted: Peers.Admitted,
                 candidates: map<string, Directory.Offer>, disk: GenFile, sidecar: KeyStore.Store)
      ensures this.directory == directory && this.store == store
      ensures diskAdmitted == admitted && diskCandidates == candidates && this.disk == disk && this.sidecar == sidecar
    {
      this.directory, this.store := directory, store;
      diskAdmitted, diskCandidates, this.disk, this.sidecar := admitted, candidates, disk, sidecar;
    }

    /** This object is the daemon, the file and the sidecar of the system. */
    ghost predicate Shows(s: System)
      reads this, directory, store
    {
      && store.Valid() && store.maxEntries == MAX_ENTRIES
      && s.disk == disk && s.sidecar == sidecar
      && s.daemon.Some? && s.daemon.value.mem == directory.Now().gens && s.daemon.value.store == store.View()
    }

    /** The best-effort write of the sidecar, which fails unless it lands. */
    method Write(lands: bool)
      requires store.Valid()
      modifies this`sidecar
      ensures sidecar == if lands then store.View() else old(sidecar)
    {
      if lands { sidecar := store.View(); }
    }

    /** The seal-posture listener: drop that identity's discovered key at once. */
    method OnSealPosture(k: Option<Key>, lands: bool, ghost s: System, ghost steps: seq<Step>, ghost t: System)
      returns (ghost steps': seq<Step>, ghost t': System)
      requires Leads(s, steps, t) && Shows(t) && t.daemon.value.phase == Serving
      modifies this`sidecar, store
      ensures Leads(s, steps', t') && Shows(t') && t'.daemon.value.phase == Serving
      ensures KeyIdOf(k).Some? ==> KeyIdOf(k).value !in store.entries
      ensures forall id :: id in store.entries ==> id in old(store.entries)
    {
      var id := KeyIdOf(k);
      if id.None? { return steps, t; }
      var existed, persisted := store.Forget(id.value);
      if !persisted.Nothing? { Write(lands); }
      ghost var step := Drop(id.value, lands);
      OneMoreStep(s, steps, t, step);
      steps', t' := steps + [step], Next(t, step);
    }

    /** Boot 1: apply the pending tombstones to the store, which saves itself as best it can. */
    method ApplyPending(pending: seq<Tombstone>, lands: bool, ghost s: System) returns (dropped: bool)
      requires Shows(s) && s.daemon.value.phase == StoreLoaded && s.daemon.value.boot.file.tombstones == pending
      modifies this`sidecar, store
      ensures Enabled(s, BootApply(lands)) && Shows(Next(s, BootApply(lands)))
      ensures Next(s, BootApply(lands)).daemon.value.phase == Applied(dropped)
    {
      ForgottenIffShrunk(store.View(), pending);
      var ids, persisted := store.ApplyTombstones(pending);
      if !persisted.Nothing? { Write(lands); }
      dropped := ids != [];
    }

    /** Boot 2: make what was applied durable, unless there is nothing whose loss could matter. */
    method PersistApplied(pending: seq<Tombstone>, dropped: bool, lands: bool, ghost s: System) returns (durably: bool)
      requires Shows(s) && s.daemon.value.phase == Applied(dropped) && s.daemon.value.boot.file.tombstones == pending
      modifies this`sidecar
      ensures Enabled(s, BootWrite(lands)) && Shows(Next(s, BootWrite(lands)))
      ensures Next(s, BootWrite(lands)).daemon.value.phase == Written(durably)
    {
      var anyMatch := false;
      for i := 0 to |pending|
        invariant anyMatch <==> exists j :: 0 <= j < i && pending[j].id in store.entries
      {
        if pending[i].id in store.entries { anyMatch := true; }
      }
      MatchesByIndex(store.View(), pending);
      durably := true;
      if dropped || anyMatch {
        Write(lands);
        durably := lands;
      }
    }

    /** Both of these, in this order. */
    method ApplyDurably(pending: seq<Tombstone>, saves: bool, durable: bool, ghost s: System) returns (durably: bool)
      requires Shows(s) && s.daemon.value.phase == StoreLoaded && s.daemon.value.boot.file.tombstones == pending
      modifies this`sidecar, store
      ensures Enabled(s, BootApply(saves)) && Enabled(Next(s, BootApply(saves)), BootWrite(durable))
      ensures var t := Next(Next(s, BootApply(saves)), BootWrite(durable));
              Shows(t) && t.daemon.value.phase == Written(durably) && t.daemon.value.boot == s.daemon.value.boot
    {
      var dropped := ApplyPending(pending, saves, s);
      durably := PersistApplied(pending, dropped, durable, Next(s, BootApply(saves)));
    }

    /** Boot 3 and 4: only then drop from the state file what this boot processed, and from the live directory. */
    method ConsumeProcessed(pending: seq<Tombstone>, through: nat, durably: bool, lands: bool, ghost s: System)
      requires Shows(s) && s.daemon.value.phase == Written(durably)
      requires s.daemon.value.boot.file.tombstones == pending && s.daemon.value.boot.file.routeGen == through
      modifies this`disk, directory
      ensures Enabled(s, BootConsume(lands)) && Shows(Next(s, BootConsume(lands)))
    {
      if durably && pending != [] && lands {
        disk := Consume(disk, pending, through);
        directory.MarkTombstonesApplied(through);
      }
    }

    /** The whole reconcile, in the order that lets no crash lose both a tombstone and what it drove. `saves`, `durable`
        and `consumes` say which of its writes land. If those that matter do, the boot consumes what it loaded. */
    method ColdStart(saves: bool, durable: bool, consumes: bool, ghost s: System)
      returns (ghost steps: seq<Step>, ghost t: System)
      requires Shows(s) && s.daemon.value.phase == StoreLoaded
      requires s.daemon.value.boot.file == directory.Now().gens
      modifies this`disk, this`sidecar, store, directory
      ensures Leads(s, steps, t) && Shows(t) && t.daemon.value.phase == Serving
      ensures steps == [BootApply(saves), BootWrite(durable), BootConsume(consumes)]
      ensures var (boot, tracked) := (old(directory.Now().gens), old(store.View()));
              if boot.tombstones != [] && (durable || !Concerns(boot.tombstones, tracked)) && consumes then
                Cleared(boot, old(disk), disk) && Marked(boot, boot, directory.Now().gens)
              else disk == old(disk) && directory.Now().gens == boot
    {
      var pending, through := directory.tombstones, directory.routeGen;
      var durably := ApplyDurably(pending, saves, durable, s);
      t := Next(Next(s, BootApply(saves)), BootWrite(durable));
      ConsumeProcessed(pending, through, durably, consumes, t);
      t := Next(t, BootConsume(consumes));
      steps := [BootApply(saves), BootWrite(durable), BootConsume(consumes)];
      BootConsumes(s, saves, durable, consumes);
      ThreeSteps(s, steps);
    }

    /** One identity of the sweep: dropped if it has a posture. */
    method SweepOne(n: string, lands: Option<Key> -> bool, ghost s: System, ghost steps: seq<Step>, ghost t: System)
      returns (ghost steps': seq<Step>, ghost t': System)
      requires Leads(s, steps, t) && Shows(t) && t.daemon.value.phase == Serving && n in directory.admitted
      modifies this`sidecar, store
      ensures Leads(s, steps', t') && Shows(t') && t'.daemon.value.phase == Serving
      ensures store.View().entries.Keys <= old(store.View()).entries.Keys
      ensures Swept(store.View(), directory.admitted, n)
    {
      steps', t' := steps, t;
      var k := directory.admitted[n].publicKey;
      var r := directory.SealForIdentity(k);
      assert PostureHolds(directory.admitted, n, r);
      UniquePosture(directory.admitted, n, r);
      if !r.state.Unverified? { steps', t' := OnSealPosture(k, lands(k), s, steps', t'); }
    }

    /** The last act of a boot, whichever identities' writes land: no discovered key beside a Tier-0 posture. */
    method SweepPostures(lands: Option<Key> -> bool, ghost s: System, ghost steps: seq<Step>, ghost t: System)
      returns (ghost steps': seq<Step>, ghost t': System)
      requires Leads(s, steps, t) && Shows(t) && t.daemon.value.phase == Serving
      modifies this`sidecar, store
      ensures Leads(s, steps', t') && Shows(t') && t'.daemon.value.phase == Serving
      ensures forall n :: n in directory.admitted ==> Swept(store.View(), directory.admitted, n)
    {
      steps', t' := steps, t;
      var todo := directory.admitted.Keys;
      while todo != {}
        invariant todo <= directory.admitted.Keys
        invariant Leads(s, steps', t') && Shows(t') && t'.daemon.value.phase == Serving
        invariant forall n :: n in directory.admitted.Keys - todo ==> Swept(store.View(), directory.admitted, n)
        decreases todo
      {
        var n :| n in todo;
        todo := todo - {n};
        ghost var before := store.View();
        steps', t' := SweepOne(n, lands, s, steps', t');
        SweptStay(before, store.View(), directory.admitted);
      }
    }

    /** Inside the lock: a directory built from disk, the change, its retirements numbered, the file written. */
    method WriteChange(ops: seq<Directory.Op>)
      modifies this`disk, this`diskAdmitted, this`diskCandidates
      ensures diskAdmitted == ApplyAll(directory.host, old(OnDisk()), ops).admitted
      ensures diskCandidates == ApplyAll(directory.host, old(OnDisk()), ops).candidates
      ensures disk == Finalize(PageDraft(old(disk), Retires(directory.host, old(OnDisk()), ops)))
    {
      var inside := new PeerDirectory(directory.host, diskAdmitted, diskCandidates, disk);
      ghost var draft := OnDisk();
      for i := 0 to |ops|
        modifies inside
        invariant inside.host == directory.host
        invariant ApplyAll(directory.host, inside.Now(), ops[i..]) == ApplyAll(directory.host, draft, ops)
      {
        assert ops[i..][0] == ops[i] && ops[i..][1..] == ops[i + 1..];
        inside.Perform(ops[i]);
      }
      assert ops[|ops|..] == [];
      ChangeMints(directory.host, draft, ops);
      var next := FinalizeRouteGens(GenFile(inside.routeGen, inside.routeGenApplied, inside.tombstones));
      disk, diskAdmitted, diskCandidates := next, inside.admitted, inside.candidates;
    }

    /** Every identity the directory has reported loses its discovered key. */
    method DropNotified(lands: Option<Key> -> bool, ghost s: System, ghost steps: seq<Step>, ghost t: System)
      returns (ghost steps': seq<Step>, ghost t': System)
      requires Leads(s, steps, t) && Shows(t) && t.daemon.value.phase == Serving
      modifies this`sidecar, store
      ensures Leads(s, steps', t') && Shows(t') && t'.daemon.value.phase == Serving
      ensures forall k :: k in directory.notified ==> Untracked(store.View(), Some(k))
    {
      steps', t' := steps, t;
      var todo := directory.notified;
      while todo != {}
        invariant Leads(s, steps', t') && Shows(t') && t'.daemon.value.phase == Serving
        invariant forall k :: k in directory.notified - todo ==> Untracked(store.View(), Some(k))
        decreases todo
      {
        var k :| k in todo;
        todo := todo - {k};
        steps', t' := OnSealPosture(Some(k), lands(Some(k)), s, steps', t');
      }
    }

    /** A change made on the page: written from what is on disk, then adopted, and every identity it retired or gave a
        posture loses its discovered key. */
    method ApplyChange(ops: seq<Directory.Op>, lands: Option<Key> -> bool, ghost s: System)
      returns (ghost steps: seq<Step>, ghost t: System)
      requires Shows(s) && s.daemon.value.phase == Serving
      requires HasRoom(PageDraft(disk, Retires(directory.host, OnDisk(), ops)))
      modifies this, store, directory
      ensures Leads(s, steps, t) && Shows(t) && t.daemon.value.phase == Serving
      ensures diskAdmitted == directory.admitted == ApplyAll(directory.host, old(OnDisk()), ops).admitted
      ensures forall k :: k in Directory.Superseded(old(directory.admitted), directory.admitted) ==>
                Untracked(store.View(), Some(k))
    {
      ghost var step := PageChange(Retires(directory.host, OnDisk(), ops), [], false);
      WriteChange(ops);
      directory.notified := {};
      directory.Adopt(diskAdmitted, diskCandidates, disk);
      PageChanged(s, step.retires);
      OneMoreStep(s, [], s, step);
      steps, t := DropNotified(lands, s, [] + [step], Next(s, step));
    }

    /** The directory a page change starts from. */
    ghost function OnDisk(): Directory.Dir
      reads this
    {
      Directory.Dir(diskAdmitted, diskCandidates, Load(disk), {})
    }
  }

  /** What a page change does to the daemon and its file before the listener runs. */
  lemma PageChanged(s: System, rs: seq<Retire>)
    requires Enabled(s, PageChange(rs, [], false))
    ensures var t := Next(s, PageChange(rs, [], false));
            var file := Finalize(PageDraft(s.disk, rs));
            && t.disk == file && t.sidecar == s.sidecar && t.daemon.Some? && t.daemon.value.phase == Serving
            && t.daemon.value.mem == Adopt(s.daemon.value.mem, file) && t.daemon.value.store == s.daemon.value.store
  {
  }

  /** The store tracks no destination of that key. */
  predicate Untracked(store: KeyStore.Store, k: Option<Key>) { KeyIdOf(k).Some? ==> KeyIdOf(k).value !in store.entries }

  ghost predicate PostureHolds(ps: Peers.Admitted, n: string, r: Directory.Posture)
    requires n in ps
  {
    Directory.IsPosture(ps, Directory.Aliases(ps, ps[n].publicKey), r)
  }

  /** An identity with a Tier-0 posture is not tracked. */
  ghost predicate Swept(store: KeyStore.Store, ps: Peers.Admitted, n: string)
    requires n in ps
  {
    forall r :: PostureHolds(ps, n, r) && !r.state.Unverified? ==> Untracked(store, ps[n].publicKey)
  }

  lemma SweptStay(before: KeyStore.Store, after: KeyStore.Store, ps: Peers.Admitted)
    requires after.entries.Keys <= before.entries.Keys
    ensures forall n :: n in ps && Swept(before, ps, n) ==> Swept(after, ps, n)
  {
    forall n | n in ps && Swept(before, ps, n) ensures Swept(after, ps, n) {
      forall r | PostureHolds(ps, n, r) && !r.state.Unverified? ensures Untracked(after, ps[n].publicKey) {
        assert Untracked(before, ps[n].publicKey);
      }
    }
  }

  lemma UniquePosture(ps: Peers.Admitted, n: string, r: Directory.Posture)
    requires n in ps && PostureHolds(ps, n, r)
    ensures forall q :: PostureHolds(ps, n, q) ==> q == r
  {
    forall q | PostureHolds(ps, n, q) ensures q == r {
      PostureIsUnique(ps, Directory.Aliases(ps, ps[n].publicKey), q, r);
    }
  }

  lemma MatchesByIndex(store: KeyStore.Store, ts: seq<Tombstone>)
    ensures Matches(store, ts) <==> exists j :: 0 <= j < |ts| && ts[j].id in store.entries
  {
    if Matches(store, ts) {
      var t :| t in ts && t.id in store.entries;
      var j :| 0 <= j < |ts| && ts[j] == t;
    }
    if j :| 0 <= j < |ts| && ts[j].id in store.entries { assert ts[j] in ts; }
  }

  lemma {:induction false} ForgottenIffShrunk(s: KeyStore.Store, ts: seq<Tombstone>)
    ensures KeyStore.ApplyTombstones(s, ts).entries.Keys <= s.entries.Keys
    ensures KeyStore.Forgotten(s, ts) == [] <==> KeyStore.ApplyTombstones(s, ts).entries.Keys == s.entries.Keys
    decreases |ts|
  {
    if ts != [] {
      ForgottenIffShrunk(KeyStore.ApplyOne(s, ts[0]), ts[1..]);
      if KeyStore.Hits(s, ts[0]) { assert ts[0].id !in KeyStore.ApplyOne(s, ts[0]).entries; }
    }
  }
}
