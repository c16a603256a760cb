/** Tier-1 sealing keys: discovered from signed self-records, usable only once a person approves them. */
module KeyStore {
  import opened Wrappers
  import opened Keys
  import opened Tombstones

  // -------------------------------------------------------------- signed records

  /** The routed view of a self-record: who it is, where to seal for it, and its advertised floor. */
  datatype SelfRecord = SelfRecord(name: string, publicKey: Option<Key>, sealKey: Option<Key>, floor: bool)

  /** An ideal signature names its signer and covers the whole record; anything else is garbage. */
  datatype Signature = SignedBy(signer: KeyId, body: SelfRecord) | Garbage

  datatype Envelope = Envelope(record: SelfRecord, signature: Signature) | Unusable

  /** `verifyDiscoveryRecord` and the `keyId` of its key: a self-consistent record of an Ed25519 identity. */
  predicate Verified(e: Envelope) {
    && e.Envelope?
    && KeyIdOf(e.record.publicKey).Some?
    && e.signature == SignedBy(KeyIdOf(e.record.publicKey).value, e.record)
  }

  // ----------------------------------------------------------------------- state

  datatype Entry = Entry(sealKey: Option<Key>, approved: bool, conflict: bool, name: string,
                         record: Option<Envelope>, at: int, gen: Option<nat>, requireSealed: bool)

  /** The insertion-ordered map of tracked destinations. */
  datatype Store = Store(entries: map<KeyId, Entry>, order: seq<KeyId>)

  datatype Line = Line(id: KeyId, entry: Entry) | Malformed

  const EMPTY := Store(map[], [])

  predicate AwaitsApproval(e: Entry) { !e.approved && !e.conflict }

  predicate DistinctKeys(order: seq<KeyId>) {
    forall i, j :: 0 <= i < j < |order| ==> order[i] != order[j]
  }

  ghost predicate WellFormed(s: Store, max: nat) {
    && DistinctKeys(s.order)
    && |s.order| <= max
    && (forall id :: id in s.entries <==> id in s.order)
  }

  function Without(order: seq<KeyId>, id: KeyId): (r: seq<KeyId>)
    ensures forall x :: x in r <==> x in order && x != id
    ensures |r| <= |order|
  {
    if order == [] then []
    else if order[0] == id then Without(order[1..], id)
    else [order[0]] + Without(order[1..], id)
  }

  function Delete(s: Store, id: KeyId): Store { Store(s.entries - {id}, Without(s.order, id)) }

  /** `entries.set`: an existing key keeps its place. */
  function Put(s: Store, id: KeyId, e: Entry): Store {
    Store(s.entries[id := e], if id in s.entries then s.order else s.order + [id])
  }

  /** The oldest destination that is neither approved nor in conflict. */
  function OldestPending(s: Store, order: seq<KeyId>): (r: Option<KeyId>)
    ensures r.Some? ==> r.value in order && r.value in s.entries && AwaitsApproval(s.entries[r.value])
    ensures r.None? ==> forall id :: id in order && id in s.entries ==> !AwaitsApproval(s.entries[id])
  {
    if order == [] then None
    else if order[0] in s.entries && AwaitsApproval(s.entries[order[0]]) then Some(order[0])
    else OldestPending(s, order[1..])
  }

  // ------------------------------------------------------------------ operations

  datatype Observed = Approved | Carried | Conflicted | NoSealKey | NotTarget | Unverified | AtCapacity

  /** What a mutation hands to the persistence port. */
  datatype Persisted = Nothing | Adding | Restricting

  datatype Outcome<T> = Outcome(store: Store, verdict: T, persisted: Persisted)

  function Discovered(env: Envelope, now: int, stamp: Option<nat>): Entry
    requires env.Envelope?
  {
    Entry(env.record.sealKey, false, false, env.record.name, Some(env), now, stamp, env.record.floor)
  }

  function Disputed(e: Entry, now: int, stamp: Option<nat>): Entry {
    Entry(None, false, true, e.name, None, now, stamp, false)
  }

  function Observe(s: Store, max: nat, target: KeyId, env: Envelope, now: int, stamp: Option<nat>): Outcome<Observed> {
    if !Verified(env) then Outcome(s, Unverified, Nothing)
    else if KeyIdOf(env.record.publicKey) != Some(target) then Outcome(s, NotTarget, Nothing)
    else if env.record.sealKey.None? then Outcome(s, NoSealKey, Nothing)
    else if target !in s.entries then
      var victim := OldestPending(s, s.order);
      if |s.order| >= max && victim.None? then Outcome(s, AtCapacity, Nothing)
      else
        var room := if |s.order| >= max then Delete(s, victim.value) else s;
        Outcome(Put(room, target, Discovered(env, now, stamp)), Carried, Adding)
    else
      var held := s.entries[target];
      if held.conflict then Outcome(s, Conflicted, Nothing)
      else if SameKey(held.sealKey, env.record.sealKey) then
        var verdict := if held.approved then Approved else Carried;
        if held.requireSealed == env.record.floor then Outcome(s, verdict, Nothing)
        else Outcome(Put(s, target, held.(requireSealed := env.record.floor, record := Some(env))), verdict, Adding)
      else Outcome(Put(s, target, Disputed(held, now, stamp)), Conflicted, Restricting)
  }

  datatype Approval = Granted(sealKey: Key) | Unknown | InConflict | Mismatch

  function Approve(s: Store, target: KeyId, expected: Option<Key>, now: int, stamp: Option<nat>): Outcome<Approval> {
    if target !in s.entries then Outcome(s, Unknown, Nothing)
    else
      var e := s.entries[target];
      if e.conflict then Outcome(s, InConflict, Nothing)
      else if e.sealKey.None? then Outcome(s, Unknown, Nothing)
      else if expected.Some? && !SameKey(e.sealKey, expected) then Outcome(s, Mismatch, Nothing)
      else if e.approved then Outcome(s, Granted(e.sealKey.value), Nothing)
      else Outcome(Put(s, target, e.(approved := true, at := now, gen := stamp)), Granted(e.sealKey.value), Adding)
  }

  function Forget(s: Store, target: KeyId): Outcome<bool> {
    if target in s.entries then Outcome(Delete(s, target), true, Restricting) else Outcome(s, false, Nothing)
  }

  /** The four generation cases, after the fail-closed one for a leaked provisional. */
  predicate Outranks(t: Tombstone, e: Entry) {
    match t.gen
    case Provisional => true
    case Finalized(n) => e.gen.None? || e.gen.value < n
    case Legacy => e.gen.None? && e.at <= t.at
  }

  function ApplyOne(s: Store, t: Tombstone): Store {
    if t.id in s.entries && Outranks(t, s.entries[t.id]) then Delete(s, t.id) else s
  }

  function ApplyTombstones(s: Store, ts: seq<Tombstone>): Store
    decreases |ts|
  {
    if ts == [] then s else ApplyTombstones(ApplyOne(s, ts[0]), ts[1..])
  }

  /** The ids a pass forgets, in the order it forgets them. */
  function Forgotten(s: Store, ts: seq<Tombstone>): seq<KeyId>
    decreases |ts|
  {
    if ts == [] then []
    else (if Hits(s, ts[0]) then [ts[0].id] else []) + Forgotten(ApplyOne(s, ts[0]), ts[1..])
  }

  predicate Hits(s: Store, t: Tombstone) { t.id in s.entries && Outranks(t, s.entries[t.id]) }

  // ------------------------------------------------------------------- read side

  /** The only key a Tier-1 send may use. */
  function RecordSealKey(s: Store, id: KeyId): Option<Key> {
    if id in s.entries && s.entries[id].approved && !s.entries[id].conflict then s.entries[id].sealKey else None
  }

  function RecordFloor(s: Store, id: KeyId): bool {
    id in s.entries && !s.entries[id].conflict && s.entries[id].requireSealed
  }

  datatype State = RecordApproved | RecordCarried | RecordConflict | NoRecord

  function RecordState(s: Store, id: KeyId): State {
    if id !in s.entries then NoRecord
    else if s.entries[id].conflict then RecordConflict
    else if s.entries[id].approved then RecordApproved
    else RecordCarried
  }

  // ----------------------------------------------------------------- persistence

  function Snapshot(s: Store, order: seq<KeyId>): (r: seq<Line>)
    requires forall i :: 0 <= i < |order| ==> order[i] in s.entries
    ensures |r| == |order|
    ensures forall i :: 0 <= i < |r| ==> r[i] == Line(order[i], s.entries[order[i]])
  {
    if order == [] then [] else [Line(order[0], s.entries[order[0]])] + Snapshot(s, order[1..])
  }

  /** What a loaded line is worth: a conflict as it stands, any other only what its record re-proves. */
  function Reproven(l: Line): Option<Entry> {
    if l.Malformed? then None
    else if l.entry.conflict then Some(Entry(None, false, true, l.entry.name, None, l.entry.at, l.entry.gen, false))
    else if l.entry.record.None? || !Verified(l.entry.record.value) then None
    else
      var rec := l.entry.record.value.record;
      if KeyIdOf(rec.publicKey) != Some(l.id) || rec.sealKey.None? then None
      else Some(Entry(rec.sealKey, l.entry.approved, false, rec.name, l.entry.record, l.entry.at, l.entry.gen,
                      rec.floor))
  }

  function LoadOne(s: Store, max: nat, l: Line): Store {
    if l.Malformed? || l.id in s.entries || |s.order| >= max || Reproven(l).None? then s
    else Put(s, l.id, Reproven(l).value)
  }

  function Rehydrate(s: Store, max: nat, lines: seq<Line>): Store
    decreases |lines|
  {
    if lines == [] then s else Rehydrate(LoadOne(s, max, lines[0]), max, lines[1..])
  }
}
