/** The sealing floor over whole runs: every process, the daemon, and the file they share. */
module SealingFloor {
  import opened Wrappers
  import opened Keys
  import opened Peers
  import opened PeerMerge
  import opened Directory
  import opened Writers

  // ------------------------------------------------------------------- one mutation

  /** The name is held, with floors at least as high as those of `q`. */
  predicate Held(ps: Admitted, n: string, q: Peer) { n in ps && FloorsAbove(ps[n], q) }

  /** A sealing key is usable only together with the floor. */
  ghost predicate Floored(ps: Admitted) {
    forall n :: n in ps && StateOf(ps[n]).Verified? ==> ps[n].sealRequired
  }

  lemma OpKeepsFloors(h: Host, d: Dir, op: Op, n: string, q: Peer)
    requires Held(d.admitted, n, q) && op != ForgetPeer(n)
    ensures Held(Apply(h, d, op).admitted, n, q)
  {
  }

  lemma OpKeepsFloored(h: Host, d: Dir, op: Op)
    requires Floored(d.admitted)
    ensures Floored(Apply(h, d, op).admitted)
  {
  }

  /** Only two mutations ever make a sealing key usable, and both by name of the key they were given or held. */
  lemma OnlyBindingMakesUsable(h: Host, d: Dir, op: Op, n: string)
    requires n in d.admitted && !StateOf(d.admitted[n]).Verified?
    requires n in Apply(h, d, op).admitted && StateOf(Apply(h, d, op).admitted[n]).Verified?
    ensures (op.BindSealKey? || op.AcceptSealKey?) && op.name == n
    ensures op.BindSealKey? ==>
              && Apply(h, d, op).admitted[n].sealPublicKey == op.key
              && (op.expected.Some? ==> d.admitted[n].publicKey.Some? && d.admitted[n].publicKey == op.expected.value)
  {
  }

  /** `bindSealKey` never replaces a bound key, never touches a pending conflict, and only ever tightens the posture. */
  lemma BindingIsConservative(h: Host, d: Dir, n: string, key: Option<Key>, expected: Option<Option<Key>>)
    requires n in d.admitted
    ensures var p := d.admitted[n];
            var q := Apply(h, d, BindSealKey(n, key, expected)).admitted[n];
            && (Bound(p) ==> q.sealPublicKey == p.sealPublicKey && q.sealSeen)
            && (p.sealConflict.Some? ==> q.sealConflict == p.sealConflict)
            && (StateOf(p).Conflict? ==> StateOf(q).Conflict?)
            && (StateOf(p).Verified? && StateOf(q) != StateOf(p) ==> StateOf(q).Conflict? && q.sealConflict == key)
            && (q == p || q == p.(sealPublicKey := q.sealPublicKey, sealSeen := true, sealConflict := q.sealConflict,
                                  sealRequired := q.sealRequired, rev := p.rev + 1))
  {
  }

  /** When it changes the record: proven for the identity held, and either nothing bound or an undisputed
      disagreement. */
  lemma BindingChangesIff(h: Host, d: Dir, n: string, key: Option<Key>, expected: Option<Option<Key>>)
    requires n in d.admitted
    ensures var p := d.admitted[n];
            Apply(h, d, BindSealKey(n, key, expected)).admitted[n] != p
            <==> key.Some? && ProvenFor(p, expected)
                 && (if Bound(p) then p.sealPublicKey != key && p.sealConflict.None? else true)
  {
  }

  /** A failing input of the merge: from one file, a process binds one sealing key and then meets a second, another
      process binds the first. Written after the other's save, the conflict is gone and the first key is usable. */
  lemma ConflictLostByBinding(ports: Ports, h: Host, d: Dir, n: string, first: Key, second: Key)
    requires n in d.admitted && d.admitted[n].publicKey.Some? && !d.admitted[n].publicKey.value.kind.Unparseable?
    requires SealOf(d.admitted[n]) == SealUnit(None, false, None)
    requires !SameKey(Some(first), Some(second)) && !first.kind.Unparseable?
    ensures var other := Apply(h, d, BindSealKey(n, Some(first), None));
            var mine := Apply(h, other, BindSealKey(n, Some(second), None));
            && n in mine.admitted && n in MergeAdmitted(ports, other.admitted, d.admitted, mine.admitted)
            && StateOf(mine.admitted[n]).Conflict? && mine.admitted[n].sealConflict == Some(second)
            && var saved := MergeAdmitted(ports, other.admitted, d.admitted, mine.admitted)[n];
               StateOf(saved).Verified? && saved.sealPublicKey == Some(first) && saved.sealConflict.None?
  {
    var (base, other) := (d.admitted[n], Apply(h, d, BindSealKey(n, Some(first), None)));
    var mine := Apply(h, other, BindSealKey(n, Some(second), None));
    ConflictLostIff(ports, other.admitted[n], mine.admitted[n], base);
  }

  // -------------------------------------------------------------------- a raise ends

  predicate WellRaised(p: Peer) {
    && "profile" in p.fields
    && (UntilOf(p.fields) != 0 ==> "profileAfter" in p.fields)
  }

  /** A temporary raise, of a peer raised or not, changes nothing once it is over. */
  lemma RaiseFallsBack(h: Host, d: Dir, n: string, offer: Offer, profile: Value, until: int, later: int)
    requires n in d.admitted && WellRaised(d.admitted[n])
    requires until != 0 && until <= later && h.now <= later && UntilOf(d.admitted[n].fields) <= later
    ensures var p := Apply(h, d, Admit(n, offer, Some(profile), until)).admitted[n];
            && WellRaised(p)
            && EffectiveProfile(p.fields, h.trust, later) == EffectiveProfile(d.admitted[n].fields, h.trust, later)
            && (h.now < until ==> EffectiveProfile(p.fields, h.trust, h.now) == Some(profile))
  {
  }

  /** Gossip about a peer, and a stamped route, leave its raise as it was. */
  lemma GossipKeepsRaise(h: Host, d: Dir, n: string, offer: Offer, later: int)
    requires n in d.admitted
    ensures var p := Apply(h, d, LearnOf(n, offer)).admitted[n];
            && EffectiveProfile(p.fields, h.trust, later) == EffectiveProfile(d.admitted[n].fields, h.trust, later)
            && StateOf(p) == StateOf(d.admitted[n])
            && (d.admitted[n].publicKey.Some? ==> p.publicKey == d.admitted[n].publicKey)
  {
  }

  // ------------------------------------------------------------------------ the fleet

  /** A command-line process: what it read, and its own directory since. */
  datatype View = View(base: Admitted, dir: Dir)

  /** `reload`: what a reload has read and not yet adopted; any adoption in between discards it. */
  datatype Fleet = Fleet(disk: Admitted, daemon: Option<Admitted>, reload: Option<Admitted>, clis: map<nat, View>)

  datatype Act =
    | Open(pid: nat, dir: Dir)
    | Change(pid: nat, op: Op)
    | Save(pid: nat)
    | Exit(pid: nat)
    | Boot
    | Stop
    | ReloadRead
    | ReloadAdopt
    | Page(dir: Dir, op: Op)

  predicate Possible(f: Fleet, a: Act) {
    match a
    case Open(pid, dir) => pid !in f.clis && dir.admitted == f.disk
    case Change(pid, _) => pid in f.clis
    case Save(pid) => pid in f.clis
    case Exit(pid) => pid in f.clis
    case Boot => f.daemon.None?
    case ReloadAdopt => f.daemon.Some? && f.reload.Some?
    case Page(dir, _) => f.daemon.Some? && dir.admitted == f.disk
    case _ => f.daemon.Some?
  }

  /** A page change is applied to a directory built from disk inside the lock, written, then adopted. */
  function After(ports: Ports, h: Host, f: Fleet, a: Act): Fleet
    requires Possible(f, a)
  {
    match a
    case Open(pid, dir) => f.(clis := f.clis[pid := View(f.disk, dir)])
    case Change(pid, op) => f.(clis := f.clis[pid := f.clis[pid].(dir := Apply(h, f.clis[pid].dir, op))])
    case Save(pid) => f.(disk := MergeAdmitted(ports, f.disk, f.clis[pid].base, f.clis[pid].dir.admitted))
    case Exit(pid) => f.(clis := f.clis - {pid})
    case Boot => f.(daemon := Some(f.disk))
    case Stop => f.(daemon := None, reload := None)
    case ReloadRead => f.(reload := Some(f.disk))
    case ReloadAdopt => f.(daemon := f.reload, reload := None)
    case Page(dir, op) =>
      var next := Apply(h, dir, op).admitted;
      f.(disk := next, daemon := Some(next), reload := None)
  }

  ghost predicate Runs(ports: Ports, h: Host, fleets: seq<Fleet>, acts: seq<Act>) {
    && |fleets| == |acts| + 1
    && fleets[0] == Fleet(map[], None, None, map[])
    && forall i ::
         0 <= i < |acts| ==> Possible(fleets[i], acts[i]) && fleets[i + 1] == After(ports, h, fleets[i], acts[i])
  }

  predicate Forgets(a: Act, n: string) {
    (a.Change? || a.Page?) && a.op == ForgetPeer(n)
  }

  /** A process that has forgotten a peer it read, and may yet write that. */
  predicate PendingForget(v: View, n: string) { n in v.base && n !in v.dir.admitted }

  ghost predicate NonePending(f: Fleet, n: string) { forall pid :: pid in f.clis ==> !PendingForget(f.clis[pid], n) }

  /** The floors stand in the file, and nobody is about to forget the peer. */
  ghost predicate Standing(f: Fleet, n: string, q: Peer) { Held(f.disk, n, q) && NonePending(f, n) }

  /** The daemon holds the floors, and so does whatever it is about to adopt. */
  predicate DaemonHolds(f: Fleet, n: string, q: Peer) {
    && (f.daemon.Some? ==> Held(f.daemon.value, n, q))
    && (f.reload.Some? ==> Held(f.reload.value, n, q))
  }

  lemma OpKeepsName(h: Host, d: Dir, op: Op, n: string)
    requires n in d.admitted && op != ForgetPeer(n)
    ensures n in Apply(h, d, op).admitted
  {
  }

  lemma SaveKeepsFloors(ports: Ports, disk: Admitted, v: View, n: string, q: Peer)
    requires Held(disk, n, q) && !PendingForget(v, n)
    ensures Held(MergeAdmitted(ports, disk, v.base, v.dir.admitted), n, q)
  {
    if n in v.dir.admitted { FloorsNeverFall(ports, disk[n], v.dir.admitted[n], Lookup(v.base, n)); }
  }

  lemma ActKeepsStanding(ports: Ports, h: Host, f: Fleet, a: Act, n: string, q: Peer)
    requires Possible(f, a) && Standing(f, n, q) && !Forgets(a, n)
    ensures Standing(After(ports, h, f, a), n, q)
    ensures DaemonHolds(f, n, q) ==> DaemonHolds(After(ports, h, f, a), n, q)
  {
    match a
    case Save(pid) => SaveKeepsFloors(ports, f.disk, f.clis[pid], n, q);
    case Change(pid, op) => if n in f.clis[pid].base { OpKeepsName(h, f.clis[pid].dir, op, n); }
    case Page(dir, op) => OpKeepsFloors(h, dir, op, n, q);
    case _ =>
  }

  ghost predicate NeverForgotten(acts: seq<Act>, n: string, i: nat, j: nat) {
    forall k :: i <= k < j && k < |acts| ==> !Forgets(acts[k], n)
  }

  /** No interleaving of writers lowers a floor of a peer, or takes one that was sealed to back to `unverified`, until
      the peer is forgotten. */
  lemma {:induction false} FloorStands(ports: Ports, h: Host, fleets: seq<Fleet>, acts: seq<Act>, n: string, q: Peer,
                                       i: nat, j: nat)
    requires Runs(ports, h, fleets, acts) && i <= j <= |acts|
    requires Standing(fleets[i], n, q) && NeverForgotten(acts, n, i, j)
    ensures Standing(fleets[j], n, q) && (q.sealRequired ==> StateOf(fleets[j].disk[n]) != Unverified)
    ensures DaemonHolds(fleets[i], n, q) ==> DaemonHolds(fleets[j], n, q)
    decreases j - i
  {
    if i < j {
      FloorStands(ports, h, fleets, acts, n, q, i, j - 1);
      ActKeepsStanding(ports, h, fleets[j - 1], acts[j - 1], n, q);
    }
  }

  // -------------------------------------------------------------- a process that changed nothing

  /** No peer on file is forgotten from here to there, nor about to be. */
  ghost predicate NoneForgotten(fleets: seq<Fleet>, acts: seq<Act>, i: nat, j: nat)
    requires i < |fleets|
  {
    forall n :: n in fleets[i].disk ==> NonePending(fleets[i], n) && NeverForgotten(acts, n, i, j)
  }

  lemma {:induction false} BaseIsFixed(ports: Ports, h: Host, fleets: seq<Fleet>, acts: seq<Act>, pid: nat, i: nat,
                                       j: nat)
    requires Runs(ports, h, fleets, acts) && i < j <= |acts|
    requires acts[i].Open? && acts[i].pid == pid && forall k :: i < k < j ==> acts[k] != Exit(pid)
    ensures pid in fleets[j].clis && fleets[j].clis[pid].base == fleets[i].disk
    decreases j - i
  {
    if i + 1 < j { BaseIsFixed(ports, h, fleets, acts, pid, i, j - 1); }
  }

  /** So a process that opened the file and changed no peer saves what is there, unless one it read was forgotten
      since. */
  lemma IdleProcessLeavesPeers(ports: Ports, h: Host, fleets: seq<Fleet>, acts: seq<Act>, pid: nat, i: nat, j: nat)
    requires Runs(ports, h, fleets, acts) && i < j < |acts|
    requires acts[i].Open? && acts[i].pid == pid && forall k :: i < k < j ==> acts[k] != Exit(pid)
    requires acts[j] == Save(pid) && NoneForgotten(fleets, acts, i, j)
    requires pid in fleets[j].clis && fleets[j].clis[pid].dir.admitted == fleets[j].clis[pid].base
    ensures fleets[j + 1].disk == fleets[j].disk
  {
    BaseIsFixed(ports, h, fleets, acts, pid, i, j);
    var (f, base) := (fleets[j], fleets[i].disk);
    forall n | n in f.disk && n in base ensures FloorsAbove(f.disk[n], base[n]) {
      FloorStands(ports, h, fleets, acts, n, base[n], i, j);
    }
    IdlePeersIff(ports, f.disk, base);
  }

  // -------------------------------------------------- being sealed to raises the floor

  ghost predicate AllFloored(f: Fleet) {
    && Floored(f.disk)
    && forall pid :: pid in f.clis ==> Floored(f.clis[pid].dir.admitted)
  }

  lemma MergeKeepsFloored(ports: Ports, disk: Admitted, base: Admitted, mine: Admitted)
    requires Floored(disk) && Floored(mine)
    ensures Floored(MergeAdmitted(ports, disk, base, mine))
  {
    var merged := MergeAdmitted(ports, disk, base, mine);
    forall n | n in merged && StateOf(merged[n]).Verified? ensures merged[n].sealRequired {
      if n in disk && n in mine { RecordKeepsFloored(ports, disk[n], mine[n], Lookup(base, n)); }
    }
  }

  lemma RecordKeepsFloored(ports: Ports, disk: Peer, mine: Peer, base: Option<Peer>)
    requires StateOf(disk).Verified? ==> disk.sealRequired
    requires StateOf(mine).Verified? ==> mine.sealRequired
    ensures var merged := MergeRecord(ports, disk, mine, base);
            StateOf(merged).Verified? ==> merged.sealRequired
  {
    if base.Some? {
      var sec := MergeSecurityUnit(disk, mine, base.value);
    }
  }

  lemma {:induction false} RunsAreFloored(ports: Ports, h: Host, fleets: seq<Fleet>, acts: seq<Act>, i: nat)
    requires Runs(ports, h, fleets, acts) && i <= |acts|
    ensures AllFloored(fleets[i])
  {
    if i > 0 {
      RunsAreFloored(ports, h, fleets, acts, i - 1);
      var f := fleets[i - 1];
      match acts[i - 1]
      case Save(pid) => MergeKeepsFloored(ports, f.disk, f.clis[pid].base, f.clis[pid].dir.admitted);
      case Change(pid, op) => OpKeepsFloored(h, f.clis[pid].dir, op);
      case Page(dir, op) => OpKeepsFloored(h, dir, op);
      case _ =>
    }
  }

  /** The sealing floor alone. */
  function SealFloor(p: Peer): Peer { p.(bindingSeen := 0) }

  /** So once a sealing key of a peer was usable in the file, every later send to it is sealed or refused, for as long
      as nobody forgets the peer. */
  lemma SealedOnceNeverClear(ports: Ports, h: Host, fleets: seq<Fleet>, acts: seq<Act>, n: string, i: nat, j: nat)
    requires Runs(ports, h, fleets, acts) && i <= j <= |acts|
    requires n in fleets[i].disk && StateOf(fleets[i].disk[n]).Verified?
    requires NonePending(fleets[i], n) && NeverForgotten(acts, n, i, j)
    ensures n in fleets[j].disk && StateOf(fleets[j].disk[n]) != Unverified
    ensures DaemonHolds(fleets[i], n, SealFloor(fleets[i].disk[n])) && fleets[j].daemon.Some? ==>
              n in fleets[j].daemon.value && StateOf(fleets[j].daemon.value[n]) != Unverified
  {
    RunsAreFloored(ports, h, fleets, acts, i);
    FloorStands(ports, h, fleets, acts, n, SealFloor(fleets[i].disk[n]), i, j);
  }

  // --------------------------------------------------------------- one identity, many names

  /** `sealForIdentity` has one answer, whatever order the aliases are visited in. */
  lemma PostureIsUnique(ps: Admitted, names: set<string>, a: Posture, b: Posture)
    requires IsPosture(ps, names, a) && IsPosture(ps, names, b)
    ensures a == b
  {
    if a.key.Some? {
      var n :| n in names && n in ps && StateOf(ps[n]).Verified?;
      assert b.key.Some? ==> a.key == b.key;
    }
  }
}
