/** What the Tier-1 store keeps over any history of observations, approvals, forgets and restarts. */
module KeyStoreProofs {
  import opened Wrappers
  import opened Keys
  import opened Tombstones
  import opened KeyStore

  // ------------------------------------------------------------------ well-formed

  lemma {:induction false} WithoutFacts(order: seq<KeyId>, id: KeyId)
    requires DistinctKeys(order)
    ensures DistinctKeys(Without(order, id))
    ensures |Without(order, id)| == if id in order then |order| - 1 else |order|
  {
    if order != [] {
      WithoutFacts(order[1..], id);
      var tail := Without(order[1..], id);
      forall i | 0 <= i < |tail| ensures tail[i] != order[0] { assert tail[i] in order[1..]; }
      if order[0] == id { assert id !in order[1..]; }
    }
  }

  lemma DeleteKeepsWellFormed(s: Store, max: nat, id: KeyId)
    requires WellFormed(s, max)
    ensures WellFormed(Delete(s, id), max)
    ensures id in s.entries ==> |Delete(s, id).order| == |s.order| - 1
  {
    WithoutFacts(s.order, id);
  }

  lemma PutKeepsWellFormed(s: Store, max: nat, id: KeyId, e: Entry)
    requires WellFormed(s, max) && (id in s.entries || |s.order| < max)
    ensures WellFormed(Put(s, id, e), max)
  {
    if id !in s.entries {
      var order := s.order + [id];
      assert order[|s.order|] == id;
      forall x | x in s.order ensures x in order {}
    }
  }

  lemma LoadKeepsWellFormed(s: Store, max: nat, l: Line)
    requires WellFormed(s, max)
    ensures WellFormed(LoadOne(s, max, l), max)
  {
    if l.Line? && l.id !in s.entries && |s.order| < max && Reproven(l).Some? {
      PutKeepsWellFormed(s, max, l.id, Reproven(l).value);
    }
  }

  // ------------------------------------------------------------------------- runs

  /** Everything that can happen to a store; a restart reloads what some file holds. */
  datatype StoreOp =
    | Seen(target: KeyId, env: Envelope, now: int, stamp: Option<nat>)
    | Blessed(target: KeyId, expected: Option<Key>, now: int, stamp: Option<nat>)
    | Dropped(target: KeyId)
    | Retired(tombstones: seq<Tombstone>)
    | Restarted(lines: seq<Line>)

  function Perform(s: Store, max: nat, op: StoreOp): Store {
    match op
    case Seen(target, env, now, stamp) => Observe(s, max, target, env, now, stamp).store
    case Blessed(target, expected, now, stamp) => Approve(s, target, expected, now, stamp).store
    case Dropped(target) => Forget(s, target).store
    case Retired(ts) => ApplyTombstones(s, ts)
    case Restarted(lines) => Rehydrate(EMPTY, max, lines)
  }

  function History(s: Store, max: nat, ops: seq<StoreOp>): Store
    decreases |ops|
  {
    if ops == [] then s else History(Perform(s, max, ops[0]), max, ops[1..])
  }

  /** An entry is a bare conflict, or carries the verified record its key and floor come from. */
  ghost predicate SoundEntry(id: KeyId, e: Entry) {
    if e.conflict then e.sealKey.None? && !e.approved && e.record.None? && !e.requireSealed
    else
      && e.record.Some? && Verified(e.record.value)
      && KeyIdOf(e.record.value.record.publicKey) == Some(id)
      && e.sealKey.Some? && e.sealKey == e.record.value.record.sealKey
      && e.requireSealed == e.record.value.record.floor
  }

  ghost predicate Sound(s: Store, max: nat) {
    && WellFormed(s, max)
    && forall id :: id in s.entries ==> SoundEntry(id, s.entries[id])
  }

  lemma {:induction false} ApplyKeeps(s: Store, max: nat, ts: seq<Tombstone>)
    requires Sound(s, max)
    ensures Sound(ApplyTombstones(s, ts), max)
    decreases |ts|
  {
    if ts != [] {
      DeleteKeepsWellFormed(s, max, ts[0].id);
      ApplyKeeps(ApplyOne(s, ts[0]), max, ts[1..]);
    }
  }

  lemma {:induction false} RehydrateKeeps(s: Store, max: nat, lines: seq<Line>)
    requires Sound(s, max)
    ensures Sound(Rehydrate(s, max, lines), max)
    decreases |lines|
  {
    if lines != [] {
      LoadKeepsWellFormed(s, max, lines[0]);
      RehydrateKeeps(LoadOne(s, max, lines[0]), max, lines[1..]);
    }
  }

  /** At the ceiling, dropping the victim leaves a well-formed store with a free slot. */
  lemma EvictionMakesRoom(s: Store, max: nat)
    requires WellFormed(s, max) && |s.order| >= max && OldestPending(s, s.order).Some?
    ensures WellFormed(Delete(s, OldestPending(s, s.order).value), max)
    ensures |Delete(s, OldestPending(s, s.order).value).order| < max
  {
    DeleteKeepsWellFormed(s, max, OldestPending(s, s.order).value);
  }

  lemma ObserveKeepsWellFormed(s: Store, max: nat, target: KeyId, env: Envelope, now: int, stamp: Option<nat>)
    requires WellFormed(s, max)
    ensures WellFormed(Observe(s, max, target, env, now, stamp).store, max)
  {
    var r := Observe(s, max, target, env, now, stamp);
    if r.persisted.Nothing? {
    } else if target in s.entries {
      PutKeepsWellFormed(s, max, target, r.store.entries[target]);
    } else if |s.order| >= max {
      EvictionMakesRoom(s, max);
      PutKeepsWellFormed(Delete(s, OldestPending(s, s.order).value), max, target, Discovered(env, now, stamp));
    } else {
      PutKeepsWellFormed(s, max, target, Discovered(env, now, stamp));
    }
  }

  lemma ObserveKeepsEntry(s: Store, max: nat, target: KeyId, env: Envelope, now: int, stamp: Option<nat>, id: KeyId)
    requires id in s.entries ==> SoundEntry(id, s.entries[id])
    requires id in Observe(s, max, target, env, now, stamp).store.entries
    ensures SoundEntry(id, Observe(s, max, target, env, now, stamp).store.entries[id])
  {}

  lemma ObserveKeeps(s: Store, max: nat, target: KeyId, env: Envelope, now: int, stamp: Option<nat>)
    requires Sound(s, max)
    ensures Sound(Observe(s, max, target, env, now, stamp).store, max)
  {
    ObserveKeepsWellFormed(s, max, target, env, now, stamp);
    var r := Observe(s, max, target, env, now, stamp).store;
    forall id | id in r.entries ensures SoundEntry(id, r.entries[id]) {
      ObserveKeepsEntry(s, max, target, env, now, stamp, id);
    }
  }

  lemma PerformKeeps(s: Store, max: nat, op: StoreOp)
    requires Sound(s, max)
    ensures Sound(Perform(s, max, op), max)
  {
    match op
    case Seen(target, env, now, stamp) => ObserveKeeps(s, max, target, env, now, stamp);
    case Blessed(target, expected, now, stamp) =>
      if target in s.entries { PutKeepsWellFormed(s, max, target, Perform(s, max, op).entries[target]); }
    case Dropped(target) => DeleteKeepsWellFormed(s, max, target);
    case Retired(ts) => ApplyKeeps(s, max, ts);
    case Restarted(lines) => RehydrateKeeps(EMPTY, max, lines);
  }

  lemma {:induction false} RunKeeps(s: Store, max: nat, ops: seq<StoreOp>)
    requires Sound(s, max)
    ensures Sound(History(s, max, ops), max)
    decreases |ops|
  {
    if ops != [] {
      PerformKeeps(s, max, ops[0]);
      RunKeeps(Perform(s, max, ops[0]), max, ops[1..]);
    }
  }

  lemma StoreIsBounded(max: nat, ops: seq<StoreOp>)
    ensures |History(EMPTY, max, ops).order| <= max
  {
    RunKeeps(EMPTY, max, ops);
  }

  // ---------------------------------------------------------- where a usable key comes from

  /** A reload of this line would bring this record back for this destination. */
  predicate Carries(l: Line, id: KeyId, env: Envelope) { l.Line? && l.id == id && l.entry.record == Some(env) }

  /** This operation put this record before the store, for this destination. */
  predicate Shows(op: StoreOp, id: KeyId, env: Envelope) {
    match op
    case Seen(target, e, _, _) => target == id && e == env
    case Restarted(lines) => exists l :: l in lines && Carries(l, id, env)
    case _ => false
  }

  predicate WasShown(ops: seq<StoreOp>, id: KeyId, env: Envelope) {
    exists i :: 0 <= i < |ops| && Shows(ops[i], id, env)
  }

  /** Whatever the store was shown under this identity's signature, that identity signed. */
  ghost predicate Unforged(ops: seq<StoreOp>, id: KeyId, signed: set<SelfRecord>) {
    forall env :: WasShown(ops, id, env) && env.Envelope? && env.signature.SignedBy? && env.signature.signer == id ==>
      env.signature.body in signed
  }

  /** A person's approval of this key as the store then held it, or the reload of an approved line whose record names
      it. */
  predicate Grants(before: Store, op: StoreOp, id: KeyId, key: Key) {
    match op
    case Blessed(target, expected, _, _) =>
      && target == id && id in before.entries && AwaitsApproval(before.entries[id])
      && before.entries[id].sealKey == Some(key) && (expected.Some? ==> expected == Some(key))
    case Restarted(lines) => exists l :: l in lines && ApprovedLine(l, id, key)
    case _ => false
  }

  predicate ApprovedLine(l: Line, id: KeyId, key: Key) {
    && l.Line? && l.id == id && l.entry.approved && !l.entry.conflict
    && l.entry.record.Some? && Verified(l.entry.record.value) && l.entry.record.value.record.sealKey == Some(key)
  }

  lemma {:induction false} HistorySnoc(s: Store, max: nat, ops: seq<StoreOp>, n: nat)
    requires n < |ops|
    ensures History(s, max, ops[..n + 1]) == Perform(History(s, max, ops[..n]), max, ops[n])
    decreases n
  {
    if n == 0 {
      assert ops[..1] == [ops[0]] && ops[..0] == [];
      assert [ops[0]][1..] == [];
    } else {
      var rest := ops[1..];
      assert ops[..n + 1][1..] == rest[..n] && ops[..n][1..] == rest[..n - 1];
      HistorySnoc(Perform(s, max, ops[0]), max, rest, n - 1);
    }
  }

  /** What a reload holds, some line of it carried. */
  lemma {:induction false} LoadedFromLine(s: Store, max: nat, lines: seq<Line>, id: KeyId) returns (l: Line)
    requires id !in s.entries && id in Rehydrate(s, max, lines).entries
    ensures l in lines && l.Line? && l.id == id && Reproven(l) == Some(Rehydrate(s, max, lines).entries[id])
    decreases |lines|
  {
    var next := LoadOne(s, max, lines[0]);
    if id in next.entries {
      l := lines[0];
      LoadedStays(next, max, lines[1..], id);
    } else {
      l := LoadedFromLine(next, max, lines[1..], id);
    }
  }

  lemma {:induction false} LoadedStays(s: Store, max: nat, lines: seq<Line>, id: KeyId)
    requires id in s.entries
    ensures id in Rehydrate(s, max, lines).entries && Rehydrate(s, max, lines).entries[id] == s.entries[id]
    decreases |lines|
  {
    if lines != [] { LoadedStays(LoadOne(s, max, lines[0]), max, lines[1..], id); }
  }

  /** An operation other than a reload keeps the record an entry had, or takes the one it is shown. */
  lemma {:induction false} RecordAfter(s: Store, max: nat, op: StoreOp, id: KeyId)
    requires !op.Restarted? && id in Perform(s, max, op).entries
    ensures var e := Perform(s, max, op).entries[id];
            e.record.None? || (id in s.entries && s.entries[id].record == e.record) || Shows(op, id, e.record.value)
  {
    match op
    case Retired(ts) => ApplyTakesOnly(s, ts, id);
    case _ =>
  }

  lemma {:induction false} ApplyTakesOnly(s: Store, ts: seq<Tombstone>, id: KeyId)
    requires id in ApplyTombstones(s, ts).entries
    ensures id in s.entries && ApplyTombstones(s, ts).entries[id] == s.entries[id]
    decreases |ts|
  {
    if ts != [] { ApplyTakesOnly(ApplyOne(s, ts[0]), ts[1..], id); }
  }

  /** Every record an entry carries was put before the store for that destination. */
  lemma {:induction false} RecordWasShown(max: nat, ops: seq<StoreOp>, n: nat, id: KeyId)
    requires n <= |ops|
    requires var s := History(EMPTY, max, ops[..n]); id in s.entries && s.entries[id].record.Some?
    ensures WasShown(ops, id, History(EMPTY, max, ops[..n]).entries[id].record.value)
  {
    if n > 0 {
      HistorySnoc(EMPTY, max, ops, n - 1);
      var op, before := ops[n - 1], History(EMPTY, max, ops[..n - 1]);
      if op.Restarted? {
        var l := LoadedFromLine(EMPTY, max, op.lines, id);
        assert Carries(l, id, l.entry.record.value);
        assert Shows(ops[n - 1], id, l.entry.record.value);
      } else {
        RecordAfter(before, max, op, id);
        if !Shows(op, id, History(EMPTY, max, ops[..n]).entries[id].record.value) {
          RecordWasShown(max, ops, n - 1, id);
        }
      }
    }
  }

  /** A key that becomes usable does so by an approval or by the reload of an approved line. */
  lemma OnlyGrantsMakeUsable(s: Store, max: nat, op: StoreOp, id: KeyId, key: Key)
    requires RecordSealKey(Perform(s, max, op), id) == Some(key)
    requires op.Restarted? || RecordSealKey(s, id) != Some(key)
    ensures Grants(s, op, id, key)
  {
    match op
    case Restarted(lines) =>
      var l := LoadedFromLine(EMPTY, max, lines, id);
      assert ApprovedLine(l, id, key);
    case Retired(ts) => ApplyTakesOnly(s, ts, id);
    case _ =>
  }

  /** The grant a usable key rests on, and that it has been usable ever since. */
  lemma {:induction false} UsableSince(max: nat, ops: seq<StoreOp>, n: nat, id: KeyId, key: Key) returns (g: nat)
    requires n <= |ops| && RecordSealKey(History(EMPTY, max, ops[..n]), id) == Some(key)
    ensures g < n && Grants(History(EMPTY, max, ops[..g]), ops[g], id, key)
    ensures forall m :: g < m <= n ==> RecordSealKey(History(EMPTY, max, ops[..m]), id) == Some(key)
  {
    HistorySnoc(EMPTY, max, ops, n - 1);
    var before := History(EMPTY, max, ops[..n - 1]);
    if ops[n - 1].Restarted? || RecordSealKey(before, id) != Some(key) {
      OnlyGrantsMakeUsable(before, max, ops[n - 1], id, key);
      g := n - 1;
    } else {
      g := UsableSince(max, ops, n - 1, id, key);
    }
  }

  /** Where the usable key of a destination comes from: a record the store was shown for it and that identity itself
      signed, and a grant of that very key, since which it has never stopped being usable. */
  lemma UsableKeyIsSigned(max: nat, ops: seq<StoreOp>, id: KeyId, signed: set<SelfRecord>)
    returns (env: Envelope, g: nat)
    requires RecordSealKey(History(EMPTY, max, ops), id).Some? && Unforged(ops, id, signed)
    ensures var s := History(EMPTY, max, ops);
            && id in s.entries && s.entries[id].approved && s.entries[id].record == Some(env) && WasShown(ops, id, env)
            && env.Envelope? && env.record in signed
            && KeyIdOf(env.record.publicKey) == Some(id) && env.record.sealKey == RecordSealKey(s, id)
    ensures var key := RecordSealKey(History(EMPTY, max, ops), id).value;
            && g < |ops| && Grants(History(EMPTY, max, ops[..g]), ops[g], id, key)
            && forall m :: g < m <= |ops| ==> RecordSealKey(History(EMPTY, max, ops[..m]), id) == Some(key)
  {
    var s := History(EMPTY, max, ops);
    assert ops[..|ops|] == ops;
    RunKeeps(EMPTY, max, ops);
    assert SoundEntry(id, s.entries[id]);
    env := s.entries[id].record.value;
    RecordWasShown(max, ops, |ops|, id);
    g := UsableSince(max, ops, |ops|, id, RecordSealKey(s, id).value);
  }

  // -------------------------------------------------------------------- authority

  /** No history of discoveries, however long or hostile, makes a key usable that was not usable before. */
  lemma {:induction false} ObservationsGrantNothing(s: Store, max: nat, ops: seq<StoreOp>, id: KeyId)
    requires WellFormed(s, max)
    requires forall i :: 0 <= i < |ops| ==> ops[i].Seen?
    ensures RecordSealKey(History(s, max, ops), id).Some? ==>
              RecordSealKey(History(s, max, ops), id) == RecordSealKey(s, id)
    decreases |ops|
  {
    if ops != [] {
      var op := ops[0];
      ObserveKeepsWellFormed(s, max, op.target, op.env, op.now, op.stamp);
      ObservationsGrantNothing(Perform(s, max, op), max, ops[1..], id);
    }
  }

  /** Only a pending destination can be displaced by a discovery. */
  lemma EvictionTakesPendingOnly(s: Store, max: nat, target: KeyId, env: Envelope, now: int, stamp: Option<nat>,
                                 id: KeyId)
    requires id in s.entries && id !in Observe(s, max, target, env, now, stamp).store.entries
    ensures AwaitsApproval(s.entries[id]) && |s.order| >= max && target !in s.entries
  {}

  lemma ApplyUnfolds(s: Store, ts: seq<Tombstone>, i: nat)
    requires i < |ts|
    ensures ApplyTombstones(s, ts[i..]) == ApplyTombstones(ApplyOne(s, ts[i]), ts[i + 1..])
    ensures Forgotten(s, ts[i..])
            == (if Hits(s, ts[i]) then [ts[i].id] else []) + Forgotten(ApplyOne(s, ts[i]), ts[i + 1..])
  {
    assert ts[i..][1..] == ts[i + 1..];
  }

  lemma {:induction false} ApplyForgets(s: Store, ts: seq<Tombstone>, id: KeyId)
    ensures id in ApplyTombstones(s, ts).entries <==>
              id in s.entries && forall t :: t in ts && t.id == id ==> !Outranks(t, s.entries[id])
    ensures id in ApplyTombstones(s, ts).entries ==> ApplyTombstones(s, ts).entries[id] == s.entries[id]
    decreases |ts|
  {
    if ts != [] {
      var s1 := ApplyOne(s, ts[0]);
      ApplyForgets(s1, ts[1..], id);
      assert forall t :: t in ts <==> t == ts[0] || t in ts[1..];
    }
  }

  /** A conflict is left only through a forget, a retirement of that identity, or a restart. */
  lemma ConflictIsSticky(s: Store, max: nat, op: StoreOp, id: KeyId)
    requires id in s.entries && s.entries[id].conflict
    requires !op.Restarted? && !(op.Dropped? && op.target == id)
    requires op.Retired? ==> forall t :: t in op.tombstones ==> t.id != id
    ensures id in Perform(s, max, op).entries && Perform(s, max, op).entries[id].conflict
  {
    if op.Retired? {
      ApplyForgets(s, op.tombstones, id);
    }
  }

  // --------------------------------------------------------------------- restarts

  /** The display name a reload re-derives from the signed record. */
  function Renamed(e: Entry): Entry {
    if e.conflict || e.record.None? || e.record.value.Unusable? then e else e.(name := e.record.value.record.name)
  }

  ghost predicate SameUpToNames(a: Store, b: Store) {
    && a.order == b.order
    && a.entries.Keys == b.entries.Keys
    && forall id :: id in a.entries ==> b.entries[id] == Renamed(a.entries[id])
  }

  /** The first n destinations of the saved store have been loaded. */
  ghost predicate Loaded(s: Store, done: Store, n: nat)
    requires n <= |s.order|
  {
    && done.order == s.order[..n]
    && (forall id :: id in done.entries <==> id in s.order[..n])
    && (forall id :: id in done.entries ==> id in s.entries && done.entries[id] == Renamed(s.entries[id]))
  }

  lemma ReloadOne(s: Store, max: nat, done: Store, n: nat)
    requires Sound(s, max) && n < |s.order| && Loaded(s, done, n)
    ensures s.order[n] in s.entries
    ensures Loaded(s, LoadOne(done, max, Line(s.order[n], s.entries[s.order[n]])), n + 1)
  {
    var id := s.order[n];
    assert id in s.entries;
    assert SoundEntry(id, s.entries[id]);
    assert id !in s.order[..n];
    assert Reproven(Line(id, s.entries[id])) == Some(Renamed(s.entries[id]));
    assert s.order[..n + 1] == s.order[..n] + [id];
  }

  lemma {:induction false} ReloadTail(s: Store, max: nat, done: Store, n: nat)
    requires Sound(s, max) && n <= |s.order| && Loaded(s, done, n)
    requires forall i :: 0 <= i < |s.order| ==> s.order[i] in s.entries
    ensures SameUpToNames(s, Rehydrate(done, max, Snapshot(s, s.order[n..])))
    decreases |s.order| - n
  {
    if n == |s.order| {
      assert s.order[..n] == s.order;
      assert s.entries.Keys == done.entries.Keys;
    } else {
      ReloadOne(s, max, done, n);
      var line := Line(s.order[n], s.entries[s.order[n]]);
      ReloadTail(s, max, LoadOne(done, max, line), n + 1);
      assert s.order[n..][1..] == s.order[n + 1..];
      var lines := Snapshot(s, s.order[n..]);
      assert lines[0] == line && lines[1..] == Snapshot(s, s.order[n + 1..]);
    }
  }

  /** Saving and reloading gives the store back, up to display names taken from the signed records. */
  lemma RestartKeepsTheStore(max: nat, ops: seq<StoreOp>)
    ensures var s := History(EMPTY, max, ops);
            && (forall i :: 0 <= i < |s.order| ==> s.order[i] in s.entries)
            && SameUpToNames(s, Rehydrate(EMPTY, max, Snapshot(s, s.order)))
  {
    var s := History(EMPTY, max, ops);
    RunKeeps(EMPTY, max, ops);
    forall i | 0 <= i < |s.order| ensures s.order[i] in s.entries { assert s.order[i] in s.order; }
    ReloadTail(s, max, EMPTY, 0);
    assert s.order[0..] == s.order;
  }
}
