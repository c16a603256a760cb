/** The key store as the daemon holds it: a map and its insertion order, changed in place. */
module RoutedKeyStore {
  import opened Wrappers
  import opened Keys
  import opened Tombstones
  import opened KeyStore
  import opened KeyStoreProofs

  class RoutedKeyStore {
    var entries: map<KeyId, Entry>
    var order: seq<KeyId>
    const maxEntries: nat

    function View(): Store reads this { Store(entries, order) }

    ghost predicate Valid() reads this { WellFormed(View(), maxEntries) }

    constructor (max: nat, initial: seq<Line>)
      ensures Valid() && maxEntries == max
      ensures View() == Rehydrate(EMPTY, max, initial)
    {
      entries, order, maxEntries := map[], [], max;
      new;
      for i := 0 to |initial|
        invariant Valid()
        invariant Rehydrate(View(), max, initial[i..]) == Rehydrate(EMPTY, max, initial)
      {
        var l := initial[i];
        assert initial[i..][1..] == initial[i + 1..];
        LoadKeepsWellFormed(View(), max, l);
        if l.Line? && l.id !in entries && |order| < maxEntries {
          var proven := Reproven(l);
          if proven.Some? {
            entries, order := entries[l.id := proven.value], order + [l.id];
          }
        }
      }
      assert initial[|initial|..] == [];
    }

    /** Make room by dropping the oldest pending destination; approved keys and conflicts never go. */
    method EvictOldest() returns (evicted: bool)
      requires Valid()
      modifies this
      ensures Valid()
      ensures var victim := OldestPending(old(View()), old(order));
              && evicted == victim.Some?
              && View() == if victim.Some? then Delete(old(View()), victim.value) else old(View())
    {
      var victim: Option<KeyId> := None;
      var i := 0;
      while i < |order| && victim.None?
        modifies {}
        invariant 0 <= i <= |order|
        invariant OldestPending(View(), order) == if victim.Some? then victim else OldestPending(View(), order[i..])
        decreases |order| - i, victim.None?
      {
        PendingUnfolds(View(), order, i);
        if order[i] in entries && AwaitsApproval(entries[order[i]]) { victim := Some(order[i]); }
        i := i + 1;
      }
      if victim.None? { return false; }
      DeleteKeepsWellFormed(View(), maxEntries, victim.value);
      entries, order := entries - {victim.value}, Without(order, victim.value);
      evicted := true;
    }

    method Observe(target: KeyId, env: Envelope, now: int, stamp: Option<nat>)
      returns (verdict: Observed, persisted: Persisted)
      requires Valid()
      modifies this
      ensures Valid()
      ensures Outcome(View(), verdict, persisted) == KeyStore.Observe(old(View()), maxEntries, target, env, now, stamp)
    {
      if !Verified(env) { return Unverified, Nothing; }
      if KeyIdOf(env.record.publicKey) != Some(target) { return NotTarget, Nothing; }
      if env.record.sealKey.None? { return NoSealKey, Nothing; }
      if target !in entries {
        if |order| >= maxEntries {
          if OldestPending(View(), order).Some? { EvictionMakesRoom(View(), maxEntries); }
          var evicted := EvictOldest();
          if !evicted { return AtCapacity, Nothing; }
        }
        PutKeepsWellFormed(View(), maxEntries, target, Discovered(env, now, stamp));
        entries, order := entries[target := Discovered(env, now, stamp)], order + [target];
        return Carried, Adding;
      }
      var held := entries[target];
      if held.conflict { return Conflicted, Nothing; }
      if SameKey(held.sealKey, env.record.sealKey) {
        persisted := Nothing;
        if held.requireSealed != env.record.floor {
          entries := entries[target := held.(requireSealed := env.record.floor, record := Some(env))];
          persisted := Adding;
        }
        return if held.approved then Approved else Carried, persisted;
      }
      entries := entries[target := Disputed(held, now, stamp)];
      return Conflicted, Restricting;
    }

    method Approve(target: KeyId, expected: Option<Key>, now: int, stamp: Option<nat>)
      returns (verdict: Approval, persisted: Persisted)
      requires Valid()
      modifies this
      ensures Valid()
      ensures Outcome(View(), verdict, persisted) == KeyStore.Approve(old(View()), target, expected, now, stamp)
    {
      if target !in entries { return Unknown, Nothing; }
      var e := entries[target];
      if e.conflict { return InConflict, Nothing; }
      if e.sealKey.None? { return Unknown, Nothing; }
      if expected.Some? && !SameKey(e.sealKey, expected) { return Mismatch, Nothing; }
      persisted := Nothing;
      if !e.approved {
        entries := entries[target := e.(approved := true, at := now, gen := stamp)];
        persisted := Adding;
      }
      verdict := Granted(e.sealKey.value);
    }

    method Forget(target: KeyId) returns (existed: bool, persisted: Persisted)
      requires Valid()
      modifies this
      ensures Valid()
      ensures Outcome(View(), existed, persisted) == KeyStore.Forget(old(View()), target)
    {
      existed := target in entries;
      persisted := if existed then Restricting else Nothing;
      if existed {
        DeleteKeepsWellFormed(View(), maxEntries, target);
        entries, order := entries - {target}, Without(order, target);
      }
    }

    method ApplyTombstones(ts: seq<Tombstone>) returns (forgotten: seq<KeyId>, persisted: Persisted)
      requires Valid()
      modifies this
      ensures Valid()
      ensures View() == KeyStore.ApplyTombstones(old(View()), ts)
      ensures forgotten == Forgotten(old(View()), ts)
      ensures persisted == if forgotten == [] then Nothing else Adding
    {
      forgotten := [];
      for i := 0 to |ts|
        invariant Valid()
        invariant KeyStore.ApplyTombstones(View(), ts[i..]) == KeyStore.ApplyTombstones(old(View()), ts)
        invariant forgotten + Forgotten(View(), ts[i..]) == Forgotten(old(View()), ts)
      {
        var t := ts[i];
        ApplyUnfolds(View(), ts, i);
        if t.id in entries && Outranks(t, entries[t.id]) {
          DeleteKeepsWellFormed(View(), maxEntries, t.id);
          entries, order := entries - {t.id}, Without(order, t.id);
          forgotten := forgotten + [t.id];
        }
      }
      assert ts[|ts|..] == [];
      persisted := if forgotten == [] then Nothing else Adding;
    }

    method RecordSealKey(target: KeyId) returns (key: Option<Key>)
      ensures key == KeyStore.RecordSealKey(View(), target)
    {
      key := if target in entries && entries[target].approved && !entries[target].conflict
             then entries[target].sealKey else None;
    }

    method Snapshot() returns (lines: seq<Line>)
      requires Valid()
      ensures lines == KeyStore.Snapshot(View(), order)
    {
      lines := [];
      for i := 0 to |order|
        invariant |lines| == i
        invariant forall j :: 0 <= j < i ==> order[j] in entries && lines[j] == Line(order[j], entries[order[j]])
      {
        assert order[i] in entries;
        lines := lines + [Line(order[i], entries[order[i]])];
      }
    }
  }

  lemma PendingUnfolds(s: Store, order: seq<KeyId>, i: nat)
    requires i < |order|
    ensures OldestPending(s, order[i..]) ==
              if order[i] in s.entries && AwaitsApproval(s.entries[order[i]]) then Some(order[i])
              else OldestPending(s, order[i + 1..])
  {
    assert order[i..][0] == order[i] && order[i..][1..] == order[i + 1..];
  }
}
