/** What each operation on the Tier-1 store does, as a sender and the persistence port see it. */
module KeyStoreLaws {
  import opened Wrappers
  import opened Keys
  import opened Tombstones
  import opened KeyStore
  import opened KeyStoreProofs

  /** A record that identity signed, naming a sealing key. */
  predicate Offers(env: Envelope, id: KeyId) {
    Verified(env) && KeyIdOf(env.record.publicKey) == Some(id) && env.record.sealKey.Some?
  }

  /** A destination reads alike in both stores: tracked or not, and its whole entry. */
  predicate SameFor(s: Store, t: Store, id: KeyId) {
    (id in s.entries <==> id in t.entries) && (id in s.entries ==> s.entries[id] == t.entries[id])
  }

  ghost predicate OnlyTouches(s: Store, t: Store, id: KeyId) { forall other :: other != id ==> SameFor(s, t, other) }

  /** What is not a record the target signed with a sealing key in it changes nothing, and is named for what it is. */
  lemma UselessRecordIsIgnored(s: Store, max: nat, id: KeyId, env: Envelope, now: int, stamp: Option<nat>)
    requires !Offers(env, id)
    ensures var o := Observe(s, max, id, env, now, stamp);
            && o.store == s && o.persisted == Nothing
            && (o.verdict == Unverified <==> !Verified(env))
            && (o.verdict == NotTarget <==> Verified(env) && KeyIdOf(env.record.publicKey) != Some(id))
            && (o.verdict == NoSealKey <==> Verified(env) && KeyIdOf(env.record.publicKey) == Some(id))
  {
  }

  /** A first record is carried, not usable, with the floor it advertises, unless the store is full of what it may not
      evict. */
  lemma FirstRecordIsCarried(s: Store, max: nat, id: KeyId, env: Envelope, now: int, stamp: Option<nat>)
    requires Sound(s, max) && Offers(env, id) && id !in s.entries
    ensures var o := Observe(s, max, id, env, now, stamp);
            var full := |s.order| == max && forall x :: x in s.entries ==> !AwaitsApproval(s.entries[x]);
            && (o.verdict == AtCapacity <==> full)
            && (full ==> o.store == s && o.persisted == Nothing)
            && (!full ==>
                  && o.verdict == Carried && o.persisted == Adding
                  && RecordState(o.store, id) == RecordCarried && RecordFloor(o.store, id) == env.record.floor
                  && var e := o.store.entries[id];
                     e.sealKey == env.record.sealKey && e.record == Some(env) && e.at == now && e.gen == stamp
                     && e.name == env.record.name)
            && (|s.order| < max ==> OnlyTouches(s, o.store, id) && o.store.order == s.order + [id])
  {
  }

  /** At the ceiling the oldest destination still awaiting approval makes room, and no other goes. */
  lemma OldestPendingMakesRoom(s: Store, max: nat, id: KeyId, env: Envelope, now: int, stamp: Option<nat>, i: nat)
    requires Sound(s, max) && Offers(env, id) && id !in s.entries && |s.order| == max
    requires i < |s.order| && AwaitsApproval(s.entries[s.order[i]])
    requires forall j :: 0 <= j < i ==> !AwaitsApproval(s.entries[s.order[j]])
    ensures var t := Observe(s, max, id, env, now, stamp).store;
            && s.order[i] !in t.entries && t.order == Without(s.order, s.order[i]) + [id]
            && forall other :: other != id && other != s.order[i] ==> SameFor(s, t, other)
  {
    OldestPendingIs(s, s.order, i);
  }

  /** The others keep their places. */
  lemma {:induction false} WithoutIs(order: seq<KeyId>, i: nat)
    requires DistinctKeys(order) && i < |order|
    ensures Without(order, order[i]) == order[..i] + order[i + 1..]
  {
    assert order == [order[0]] + order[1..];
    if i == 0 {
      WithoutNone(order[1..], order[0]);
    } else {
      WithoutIs(order[1..], i - 1);
      assert order[..i] == [order[0]] + order[1..][..i - 1] && order[i + 1..] == order[1..][i..];
    }
  }

  lemma {:induction false} WithoutNone(order: seq<KeyId>, id: KeyId)
    requires id !in order
    ensures Without(order, id) == order
  {
    if order != [] {
      assert order[0] in order;
      WithoutNone(order[1..], id);
      assert order == [order[0]] + order[1..];
    }
  }

  lemma {:induction false} OldestPendingIs(s: Store, order: seq<KeyId>, i: nat)
    requires i < |order| && order[i] in s.entries && AwaitsApproval(s.entries[order[i]])
    requires forall j :: 0 <= j < i ==> order[j] in s.entries && !AwaitsApproval(s.entries[order[j]])
    ensures OldestPending(s, order) == Some(order[i])
  {
    if i > 0 { OldestPendingIs(s, order[1..], i - 1); }
  }

  /** The same sealing key again leaves key, approval and stamp alone; a changed floor is taken over with its record. */
  lemma SameKeyIsConfirmed(s: Store, max: nat, id: KeyId, env: Envelope, now: int, stamp: Option<nat>)
    requires Sound(s, max) && Offers(env, id) && id in s.entries && !s.entries[id].conflict
    requires s.entries[id].sealKey == env.record.sealKey
    ensures var (o, e) := (Observe(s, max, id, env, now, stamp), s.entries[id]);
            && o.verdict == (if e.approved then Approved else Carried)
            && RecordState(o.store, id) == RecordState(s, id) && RecordSealKey(o.store, id) == RecordSealKey(s, id)
            && RecordFloor(o.store, id) == env.record.floor
            && o.store.entries[id].sealKey == e.sealKey && o.store.entries[id].gen == e.gen
            && o.store.entries[id].at == e.at
            && (RecordFloor(s, id) == env.record.floor ==> o.store == s && o.persisted == Nothing)
            && (RecordFloor(s, id) != env.record.floor ==>
                  o.persisted == Adding && o.store.entries[id].record == Some(env))
            && OnlyTouches(s, o.store, id) && o.store.order == s.order
  {
  }

  /** A different sealing key under the same identity: a conflict, and nothing usable is left, approved or not. */
  lemma OtherKeyIsAConflict(s: Store, max: nat, id: KeyId, env: Envelope, now: int, stamp: Option<nat>)
    requires Offers(env, id) && id in s.entries && !s.entries[id].conflict
    requires s.entries[id].sealKey != env.record.sealKey
    ensures var o := Observe(s, max, id, env, now, stamp);
            && o.verdict == Conflicted && o.persisted == Restricting
            && RecordState(o.store, id) == RecordConflict && RecordSealKey(o.store, id) == None
            && !RecordFloor(o.store, id)
            && o.store.entries[id].sealKey == None && !o.store.entries[id].approved
            && o.store.entries[id].record == None && o.store.entries[id].gen == stamp && o.store.entries[id].at == now
            && OnlyTouches(s, o.store, id) && o.store.order == s.order
  {
  }

  /** Once in conflict, no record changes anything. */
  lemma ConflictIgnoresRecords(s: Store, max: nat, id: KeyId, env: Envelope, now: int, stamp: Option<nat>)
    requires Offers(env, id) && RecordState(s, id) == RecordConflict
    ensures Observe(s, max, id, env, now, stamp) == Outcome(s, Conflicted, Nothing)
    ensures RecordSealKey(s, id) == None && !RecordFloor(s, id)
  {
  }

  /** An approval is granted exactly for a key that is held, undisputed, and the one expected; only then does it change
      anything, and only the first one does: that key becomes usable, under the stamp given. */
  lemma ApprovalIff(s: Store, max: nat, id: KeyId, expected: Option<Key>, now: int, stamp: Option<nat>)
    ensures var o := Approve(s, id, expected, now, stamp);
            var held := if id in s.entries && !s.entries[id].conflict then s.entries[id].sealKey else None;
            && (o.verdict.Granted? <==> held.Some? && (expected.Some? ==> expected == held))
            && (o.verdict == Mismatch <==> held.Some? && expected.Some? && expected != held)
            && (o.verdict == InConflict <==> RecordState(s, id) == RecordConflict)
            && (o.verdict.Granted? ==> RecordSealKey(o.store, id) == held == Some(o.verdict.sealKey))
            && (o.verdict.Granted? && RecordState(s, id) == RecordCarried ==>
                  && o.persisted == Adding
                  && o.store.entries[id] == s.entries[id].(approved := true, at := now, gen := stamp))
            && (!(o.verdict.Granted? && RecordState(s, id) == RecordCarried) ==> o.store == s && o.persisted == Nothing)
            && OnlyTouches(s, o.store, id) && o.store.order == s.order
  {
  }

  /** Forgetting drops that destination and no other, and is persisted as a restriction exactly when it was tracked. */
  lemma ForgetDropsOne(s: Store, id: KeyId)
    ensures var o := Forget(s, id);
            && RecordState(o.store, id) == NoRecord && OnlyTouches(s, o.store, id)
            && o.verdict == (id in s.entries)
            && o.persisted == (if id in s.entries then Restricting else Nothing)
  {
  }

  /** A numbered retirement drops what was stamped before that number or never; one older than numbers drops only what
      was never stamped and is no later; one not yet numbered drops whatever there is. */
  lemma RetirementDropsIff(s: Store, t: Tombstone)
    ensures RecordState(ApplyTombstones(s, [t]), t.id) == NoRecord
       <==> t.id in s.entries ==>
              var e := s.entries[t.id];
              if t.gen.Finalized? then e.gen.None? || t.gen.n > e.gen.value
              else if t.gen.Legacy? then e.gen.None? && t.at >= e.at
              else true
  {
    assert [t][1..] == [];
  }

  /** A pass of tombstones drops whole entries and changes none. */
  lemma {:induction false} TombstonesOnlyDrop(s: Store, ts: seq<Tombstone>, id: KeyId)
    ensures id in ApplyTombstones(s, ts).entries ==> SameFor(s, ApplyTombstones(s, ts), id)
    ensures (forall t :: t in ts ==> t.id != id) ==> SameFor(s, ApplyTombstones(s, ts), id)
    decreases |ts|
  {
    if ts != [] {
      TombstonesOnlyDrop(ApplyOne(s, ts[0]), ts[1..], id);
      assert ts[0] in ts;
    }
  }

  // ------------------------------------------------------------------- over a history

  /** The store was shown another sealing key of this identity, under its signature. */
  predicate Disputes(op: StoreOp, id: KeyId, key: Key) {
    op.Seen? && op.target == id && Offers(op.env, id) && op.env.record.sealKey != Some(key)
  }

  /** Since the grant a usable key rests on, the store was shown no other sealing key of that destination. */
  lemma UndisputedSinceGrant(max: nat, ops: seq<StoreOp>, id: KeyId, signed: set<SelfRecord>)
    returns (env: Envelope, g: nat)
    requires RecordSealKey(History(EMPTY, max, ops), id).Some? && Unforged(ops, id, signed)
    ensures var key := RecordSealKey(History(EMPTY, max, ops), id).value;
            && g < |ops| && Grants(History(EMPTY, max, ops[..g]), ops[g], id, key)
            && env.Envelope? && env.record in signed && env.record.sealKey == Some(key)
            && forall m :: g < m < |ops| ==> !Disputes(ops[m], id, key)
  {
    env, g := UsableKeyIsSigned(max, ops, id, signed);
    var key := RecordSealKey(History(EMPTY, max, ops), id).value;
    forall m | g < m < |ops| ensures !Disputes(ops[m], id, key) {
      var next := m + 1;
      assert RecordSealKey(History(EMPTY, max, ops[..m]), id) == Some(key);
      assert RecordSealKey(History(EMPTY, max, ops[..next]), id) == Some(key);
      HistorySnoc(EMPTY, max, ops, m);
      if Disputes(ops[m], id, key) {
        OtherKeyIsAConflict(History(EMPTY, max, ops[..m]), max, id, ops[m].env, ops[m].now, ops[m].stamp);
      }
    }
  }
}
