/** Admitted peers as stored, and the three-way merge of two views of one peer. */
module Peers {
  import opened Wrappers
  import opened Keys

  /** A stored value, compared by its JSON text; numbers apart because two fields are merged by maximum. */
  datatype Value = Number(n: int) | Data(json: string)

  type Fields = map<string, Value>

  /** The security unit and the monotone floors by name, everything else by field name. */
  datatype Peer = Peer(publicKey: Option<Key>, sealPublicKey: Option<Key>, sealSeen: bool, sealConflict: Option<Key>,
                       sealRequired: bool, bindingSeen: nat, rev: nat, fields: Fields)

  /** List arithmetic the merge relies on but does not decide: address ranking and conflict display. */
  datatype Ports = Ports(addresses: (Option<Value>, Option<Value>) -> Value,
                         conflicts: (Option<Value>, Option<Value>) -> Option<Value>,
                         appendConflict: (Option<Value>, Key) -> Option<Value>)

  function MaxNat(a: nat, b: nat): nat { if a < b then b else a }

  function Get(p: Peer, f: string): Option<Value> { if f in p.fields then Some(p.fields[f]) else None }

  /** Presence-aware difference from the baseline. */
  predicate FieldChanged(p: Peer, base: Peer, f: string) { Get(p, f) != Get(base, f) }

  // ------------------------------------------------------------------ sealing unit

  datatype SealUnit = SealUnit(key: Option<Key>, seen: bool, conflict: Option<Key>)

  function SealOf(p: Peer): SealUnit { SealUnit(p.sealPublicKey, p.sealSeen, p.sealConflict) }

  function WithSeal(p: Peer, u: SealUnit): Peer {
    p.(sealPublicKey := u.key, sealSeen := u.seen, sealConflict := u.conflict)
  }

  predicate SameSeal(a: Peer, b: Peer) {
    && ((a.sealPublicKey.None? && b.sealPublicKey.None?) || SameCanonicalKey(a.sealPublicKey, b.sealPublicKey))
    && a.sealSeen == b.sealSeen
    && (a.sealConflict == b.sealConflict || SameCanonicalKey(a.sealConflict, b.sealConflict))
  }

  datatype SealState = Verified | Conflict | Reverify | Unverified

  /** The posture a sender acts on. */
  function StateOf(p: Peer): SealState {
    if p.sealConflict.Some? then Conflict
    else if p.sealSeen && p.sealPublicKey.Some? then Verified
    else if p.sealRequired then Reverify
    else Unverified
  }

  // ----------------------------------------------------------------- security merge

  datatype Security = Security(mineIdentity: bool, seal: Option<SealUnit>, conflictKey: Option<Key>,
                               identityChanged: bool)

  /** Holds an identity other than the baseline's. */
  predicate Rotated(p: Peer, base: Peer) { p.publicKey.Some? && !SameCanonicalKey(p.publicKey, base.publicKey) }

  function MergeSecurityUnit(disk: Peer, mine: Peer, base: Peer): Security {
    if base.publicKey.None? then Security(false, None, None, false)
    else
      var diskRotated, mineRotated := Rotated(disk, base), Rotated(mine, base);
      if diskRotated && !mineRotated then Security(false, None, None, true)
      else if mineRotated && !diskRotated then Security(true, None, None, true)
      else if diskRotated && mineRotated && !SameCanonicalKey(disk.publicKey, mine.publicKey) then
        Security(false, Some(SealOf(disk)), mine.publicKey, true)
      else
        var diskSeal, mineSeal := !SameSeal(disk, base), !SameSeal(mine, base);
        var seal :=
          if diskSeal && mineSeal then
            if disk.sealPublicKey.Some? && mine.sealPublicKey.Some?
               && !SameCanonicalKey(disk.sealPublicKey, mine.sealPublicKey)
            then Some(SealUnit(disk.sealPublicKey, true, mine.sealPublicKey))
            else None
          else if diskSeal then Some(SealOf(disk))
          else if mineSeal then Some(SealOf(mine))
          else None;
        Security(false, seal, None, diskRotated && mineRotated)
  }

  // -------------------------------------------------------------------- field merge

  const ELEVATION: set<string> := {"profile", "profileUntil", "profileAfter"}

  predicate ElevationChanged(p: Peer, base: Peer) {
    exists f :: f in ELEVATION && FieldChanged(p, base, f)
  }

  function NumberIn(v: Option<Value>): int { if v.Some? && v.value.Number? then v.value.n else 0 }

  /** What one field of the merge holds. */
  function MergedField(ports: Ports, disk: Peer, mine: Peer, base: Peer, identityChanged: bool, winner: Peer, f: string)
    : Option<Value>
  {
    var d, m := Get(disk, f), Get(mine, f);
    var dCh, mCh := FieldChanged(disk, base, f), FieldChanged(mine, base, f);
    if f in ELEVATION then
      if ElevationChanged(mine, base) && !ElevationChanged(disk, base) then m else d
    else if f == "conflicts" && identityChanged then Get(winner, f)
    else if f == "conflicts" && dCh && mCh then ports.conflicts(d, m)
    else if dCh && mCh then
      if d == m then d
      else if f == "lastSeen" || f == "v" then
        var most := if NumberIn(d) < NumberIn(m) then NumberIn(m) else NumberIn(d);
        if most > 0 then Some(Number(most)) else d
      else if f == "addresses" then Some(ports.addresses(d, m))
      else d
    else if mCh then m
    else d
  }

  function FieldNames(disk: Peer, mine: Peer): set<string> { disk.fields.Keys + mine.fields.Keys }

  function MergedFields(ports: Ports, disk: Peer, mine: Peer, base: Peer, identityChanged: bool, winner: Peer): Fields {
    map f | f in FieldNames(disk, mine) && MergedField(ports, disk, mine, base, identityChanged, winner, f).Some?
      :: MergedField(ports, disk, mine, base, identityChanged, winner, f).value
  }

  function SetOrDelete(fields: Fields, f: string, v: Option<Value>): Fields {
    if v.Some? then fields[f := v.value] else fields - {f}
  }

  /** One pass over the field names, editing `merged` in place. */
  method MergeFields(ports: Ports, disk: Peer, mine: Peer, base: Peer, identityChanged: bool, winner: Peer)
    returns (merged: Fields)
    requires winner == disk || winner == mine
    ensures merged == MergedFields(ports, disk, mine, base, identityChanged, winner)
  {
    merged := winner.fields;
    var todo := FieldNames(disk, mine);
    while todo != {}
      invariant todo <= FieldNames(disk, mine)
      invariant forall f :: f in todo ==> (f in merged <==> f in winner.fields)
      invariant forall f :: f in merged ==> f in FieldNames(disk, mine)
      invariant forall f :: f in FieldNames(disk, mine) - todo ==>
                  (if f in merged then Some(merged[f]) else None)
                  == MergedField(ports, disk, mine, base, identityChanged, winner, f)
      decreases todo
    {
      var f :| f in todo;
      todo := todo - {f};
      merged := SetOrDelete(merged, f, MergedField(ports, disk, mine, base, identityChanged, winner, f));
    }
  }

  // ------------------------------------------------------------------- record merge

  datatype Decision = TakeDisk | TakeMine | MergeBoth

  /** Who moved past the common ancestor, by revision; without one, the higher revision, ties to disk. */
  function Decide(disk: Peer, mine: Peer, base: Option<Peer>): Decision {
    match base
    case None => if mine.rev > disk.rev then TakeMine else TakeDisk
    case Some(b) =>
      if disk.rev != b.rev && mine.rev != b.rev then MergeBoth
      else if disk.rev != b.rev then TakeDisk
      else if mine.rev != b.rev then TakeMine
      else TakeDisk
  }

  /** The floors that never fall. */
  function Floored(p: Peer, disk: Peer, mine: Peer): Peer {
    p.(bindingSeen := MaxNat(disk.bindingSeen, mine.bindingSeen),
       sealRequired := disk.sealRequired || mine.sealRequired)
  }

  /** The floors of one record stand at least as high as those of another. */
  predicate FloorsAbove(p: Peer, q: Peer) { q.bindingSeen <= p.bindingSeen && (q.sealRequired ==> p.sealRequired) }

  function MergeConcurrent(ports: Ports, disk: Peer, mine: Peer, base: Peer): Peer {
    var sec := MergeSecurityUnit(disk, mine, base);
    var winner := if sec.mineIdentity then mine else disk;
    var sealed := if sec.seal.Some? then WithSeal(winner, sec.seal.value) else winner;
    var fields := MergedFields(ports, disk, mine, base, sec.identityChanged, winner);
    var noted :=
      if sec.conflictKey.Some? then
        var listed := if "conflicts" in fields then Some(fields["conflicts"]) else None;
        SetOrDelete(fields, "conflicts", ports.appendConflict(listed, sec.conflictKey.value))
      else fields;
    Floored(sealed, disk, mine).(fields := noted, rev := MaxNat(disk.rev, mine.rev))
  }

  function MergeRecord(ports: Ports, disk: Peer, mine: Peer, base: Option<Peer>): Peer {
    match Decide(disk, mine, base)
    case TakeDisk => Floored(disk, disk, mine)
    case TakeMine => Floored(mine, disk, mine)
    case MergeBoth => MergeConcurrent(ports, disk, mine, base.value)
  }

  // ---------------------------------------------------------------------- set merge

  type Admitted = map<string, Peer>

  function Lookup(ps: Admitted, n: string): Option<Peer> { if n in ps then Some(ps[n]) else None }

  /** One name across disk, this writer's snapshot and the snapshot it started from. */
  function MergeName(ports: Ports, disk: Admitted, base: Admitted, mine: Admitted, n: string): Option<Peer> {
    if n in disk && n in mine then Some(MergeRecord(ports, disk[n], mine[n], Lookup(base, n)))
    else if n in disk then (if n in base then None else Some(disk[n]))
    else if n in mine then (if n in base then None else Some(mine[n]))
    else None
  }

  /** `mergeByRevision` with the intent `reconcilePersist` gives it. */
  function MergeAdmitted(ports: Ports, disk: Admitted, base: Admitted, mine: Admitted): Admitted {
    map n | n in disk.Keys + mine.Keys && MergeName(ports, disk, base, mine, n).Some?
      :: MergeName(ports, disk, base, mine, n).value
  }
}
