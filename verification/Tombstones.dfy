/** Retired-identity tombstones: their merge, their consumption, and the generations they are given. */
module Tombstones {
  import opened JsText
  import opened Keys

  datatype Reason = OnForget | OnRotate

  /** Legacy: written before generations. Provisional: minted, its number not yet allocated. */
  datatype Gen = Legacy | Finalized(n: nat) | Provisional

  datatype Tombstone = Tombstone(id: KeyId, at: int, reason: Reason, gen: Gen)

  /** The part of directory.json the retirement protocol turns on. */
  datatype GenFile = GenFile(routeGen: nat, applied: nat, tombstones: seq<Tombstone>)

  /** `Number.MAX_SAFE_INTEGER - 1`. */
  const CEILING: nat := 0x1F_FFFF_FFFF_FFFE

  function Clamp(n: nat): nat { if n < CEILING then n else CEILING }

  function Max(a: nat, b: nat): nat { if a < b then b else a }

  // ------------------------------------------------------------------ consumption

  predicate Consumed(t: Tombstone, applied: nat) { t.gen.Finalized? && t.gen.n <= applied }

  /** `pruneTombstones`: drop what the daemon has durably applied, and nothing else. */
  function Prune(ts: seq<Tombstone>, applied: nat): (r: seq<Tombstone>)
    ensures forall t :: t in r <==> t in ts && !Consumed(t, applied)
  {
    if ts == [] then []
    else if Consumed(ts[0], applied) then Prune(ts[1..], applied)
    else [ts[0]] + Prune(ts[1..], applied)
  }

  // ------------------------------------------------------------------------ merge

  /** legacy(at) < finalized(gen) < provisional. */
  datatype Rank = Rank(tier: int, weight: int)

  const NOTHING := Rank(-1, 0)

  function RankOf(t: Tombstone): Rank {
    match t.gen
    case Legacy => Rank(0, t.at)
    case Finalized(n) => Rank(1, n)
    case Provisional => Rank(2, 0)
  }

  predicate Below(a: Rank, b: Rank) { a.tier < b.tier || (a.tier == b.tier && a.weight < b.weight) }

  function Join(a: Rank, b: Rank): Rank { if Below(a, b) then b else a }

  /** Whether a later candidate for one key id replaces what is held; a provisional always does. */
  predicate Supersedes(cand: Tombstone, prev: Tombstone) {
    if cand.gen.Provisional? then true
    else if prev.gen.Provisional? then false
    else if cand.gen.Finalized? && prev.gen.Finalized? then cand.gen.n > prev.gen.n
    else if cand.gen.Finalized? then true
    else if prev.gen.Finalized? then false
    else cand.at > prev.at
  }

  /** `byId.set`: replace in place, or append a new key id. */
  function Absorb(acc: seq<Tombstone>, t: Tombstone): seq<Tombstone> {
    if acc == [] then [t]
    else if acc[0].id == t.id then (if Supersedes(t, acc[0]) then [t] + acc[1..] else acc)
    else [acc[0]] + Absorb(acc[1..], t)
  }

  function AbsorbAll(acc: seq<Tombstone>, ts: seq<Tombstone>): seq<Tombstone>
    decreases |ts|
  {
    if ts == [] then acc else AbsorbAll(Absorb(acc, ts[0]), ts[1..])
  }

  function Merge(a: seq<Tombstone>, b: seq<Tombstone>): seq<Tombstone> {
    AbsorbAll(AbsorbAll([], a), b)
  }

  predicate DistinctIds(ts: seq<Tombstone>) {
    forall i, j :: 0 <= i < j < |ts| ==> ts[i].id != ts[j].id
  }

  /** The strongest rank a list holds for one key id. */
  function Top(ts: seq<Tombstone>, id: KeyId): Rank {
    if ts == [] then NOTHING
    else Join(if ts[0].id == id then RankOf(ts[0]) else NOTHING, Top(ts[1..], id))
  }

  lemma {:induction false} AbsorbTop(acc: seq<Tombstone>, t: Tombstone, id: KeyId)
    requires DistinctIds(acc)
    ensures Top(Absorb(acc, t), id) == Join(Top(acc, id), if t.id == id then RankOf(t) else NOTHING)
  {
    if acc == [] {
    } else if acc[0].id == t.id {
      NoneBeyond(acc, id);
      assert ([t] + acc[1..])[1..] == acc[1..];
    } else {
      AbsorbTop(acc[1..], t, id);
      assert ([acc[0]] + Absorb(acc[1..], t))[1..] == Absorb(acc[1..], t);
    }
  }

  lemma {:induction false} NoneBeyond(ts: seq<Tombstone>, id: KeyId)
    requires DistinctIds(ts) && ts != []
    ensures ts[0].id == id ==> Top(ts[1..], id) == NOTHING
  {
    if ts[0].id == id { AbsentHasNoRank(ts[1..], id); }
  }

  lemma {:induction false} AbsentHasNoRank(ts: seq<Tombstone>, id: KeyId)
    requires forall t :: t in ts ==> t.id != id
    ensures Top(ts, id) == NOTHING
  {
    if ts != [] { AbsentHasNoRank(ts[1..], id); }
  }

  lemma {:induction false} AbsorbShape(acc: seq<Tombstone>, t: Tombstone)
    requires DistinctIds(acc)
    ensures DistinctIds(Absorb(acc, t))
    ensures forall x :: x in Absorb(acc, t) ==> x in acc || x == t
  {
    if acc != [] && acc[0].id != t.id {
      AbsorbShape(acc[1..], t);
      var tail := Absorb(acc[1..], t);
      forall i | 0 <= i < |tail| ensures tail[i].id != acc[0].id { assert tail[i] in tail; }
    }
  }

  lemma {:induction false} AbsorbAllFacts(acc: seq<Tombstone>, ts: seq<Tombstone>, id: KeyId)
    requires DistinctIds(acc)
    ensures DistinctIds(AbsorbAll(acc, ts))
    ensures Top(AbsorbAll(acc, ts), id) == Join(Top(acc, id), Top(ts, id))
    ensures forall x :: x in AbsorbAll(acc, ts) ==> x in acc || x in ts
    decreases |ts|
  {
    if ts != [] {
      AbsorbShape(acc, ts[0]);
      AbsorbTop(acc, ts[0], id);
      AbsorbAllFacts(Absorb(acc, ts[0]), ts[1..], id);
    }
  }

  /** The merge is the keywise join of its two lists, and invents nothing. */
  lemma MergeIsKeywiseJoin(a: seq<Tombstone>, b: seq<Tombstone>, id: KeyId)
    ensures Top(Merge(a, b), id) == Join(Top(a, id), Top(b, id))
    ensures DistinctIds(Merge(a, b))
    ensures forall x :: x in Merge(a, b) ==> x in a || x in b
  {
    AbsorbAllFacts([], a, id);
    AbsorbAllFacts(AbsorbAll([], a), b, id);
  }

  /** Hence, rank for rank, the order and grouping of merges do not matter and repeats add nothing. */
  lemma MergeIsASemilattice(a: seq<Tombstone>, b: seq<Tombstone>, c: seq<Tombstone>, id: KeyId)
    ensures Top(Merge(a, b), id) == Top(Merge(b, a), id)
    ensures Top(Merge(Merge(a, b), c), id) == Top(Merge(a, Merge(b, c)), id)
    ensures Top(Merge(a, a), id) == Top(a, id)
  {
    MergeIsKeywiseJoin(a, b, id);
    MergeIsKeywiseJoin(b, a, id);
    MergeIsKeywiseJoin(b, c, id);
    MergeIsKeywiseJoin(Merge(a, b), c, id);
    MergeIsKeywiseJoin(a, Merge(b, c), id);
    MergeIsKeywiseJoin(a, a, id);
  }

  lemma {:induction false} TopIsHeld(ts: seq<Tombstone>, id: KeyId)
    ensures Top(ts, id) == NOTHING || exists t :: t in ts && t.id == id && RankOf(t) == Top(ts, id)
    ensures forall t :: t in ts && t.id == id ==> !Below(Top(ts, id), RankOf(t))
  {
    if ts != [] {
      TopIsHeld(ts[1..], id);
      if ts[0].id == id && Top(ts, id) == RankOf(ts[0]) {
        assert ts[0] in ts;
      } else if Top(ts, id) != NOTHING {
        var t :| t in ts[1..] && t.id == id && RankOf(t) == Top(ts[1..], id);
        assert t in ts;
      }
    }
  }

  /** Every tombstone of either list is answered in the merge by one at least as strong. */
  lemma MergeCovers(a: seq<Tombstone>, b: seq<Tombstone>, t: Tombstone)
    requires t in a || t in b
    ensures exists m :: m in Merge(a, b) && m.id == t.id && !Below(RankOf(m), RankOf(t))
  {
    MergeIsKeywiseJoin(a, b, t.id);
    TopIsHeld(a, t.id);
    TopIsHeld(b, t.id);
    TopIsHeld(Merge(a, b), t.id);
  }

  /** Two nested loops, over the lists and their tombstones, filling a map keyed by key id. */
  method MergeTombstones(a: seq<Tombstone>, b: seq<Tombstone>) returns (r: seq<Tombstone>)
    ensures r == Merge(a, b)
  {
    var byId: map<KeyId, Tombstone>, order: seq<KeyId> := map[], [];
    var lists := [a, b];
    ghost var acc: seq<Tombstone> := [];
    for k := 0 to 2
      invariant acc == [[], AbsorbAll([], a), Merge(a, b)][k]
      invariant Represents(byId, order, acc)
    {
      var src := lists[k];
      ghost var start := acc;
      for i := 0 to |src|
        invariant Represents(byId, order, acc)
        invariant AbsorbAll(acc, src[i..]) == AbsorbAll(start, src)
      {
        var t := src[i];
        assert src[i..][1..] == src[i + 1..];
        StepRepresents(byId, order, acc, t);
        if t.id !in byId {
          byId, order := byId[t.id := t], order + [t.id];
        } else if Supersedes(t, byId[t.id]) {
          byId := byId[t.id := t];
        }
        acc := Absorb(acc, t);
      }
      assert src[|src|..] == [];
    }
    r := Listed(byId, order);
    assert r == acc;
  }

  predicate Covers(byId: map<KeyId, Tombstone>, order: seq<KeyId>) {
    forall i :: 0 <= i < |order| ==> order[i] in byId
  }

  /** `[...byId.values()]`. */
  function Listed(byId: map<KeyId, Tombstone>, order: seq<KeyId>): (r: seq<Tombstone>)
    requires Covers(byId, order)
    ensures |r| == |order| && forall i :: 0 <= i < |r| ==> r[i] == byId[order[i]]
  {
    seq(|order|, i requires 0 <= i < |order| && Covers(byId, order) => byId[order[i]])
  }

  /** The map and its insertion order stand for the list. */
  ghost predicate Represents(byId: map<KeyId, Tombstone>, order: seq<KeyId>, acc: seq<Tombstone>) {
    && |order| == |acc|
    && DistinctIds(acc)
    && Covers(byId, order)
    && (forall i :: 0 <= i < |acc| ==> order[i] == acc[i].id && byId[order[i]] == acc[i])
    && (forall id :: id in byId ==> id in order)
  }

  lemma StepNew(byId: map<KeyId, Tombstone>, order: seq<KeyId>, acc: seq<Tombstone>, t: Tombstone)
    requires Represents(byId, order, acc) && t.id !in byId
    ensures Represents(byId[t.id := t], order + [t.id], Absorb(acc, t))
  {
    AbsorbShape(acc, t);
    AbsorbNew(acc, t);
    assert (order + [t.id])[|order|] == t.id;
    forall id | id in byId ensures id in order + [t.id] { assert id in order; }
  }

  lemma Replace(byId: map<KeyId, Tombstone>, order: seq<KeyId>, acc: seq<Tombstone>, t: Tombstone, j: nat)
    requires Represents(byId, order, acc) && j < |acc| && acc[j].id == t.id
    ensures Represents(byId[t.id := t], order, acc[j := t])
  {
    var acc' := acc[j := t];
    forall i | 0 <= i < |acc| ensures order[i] == acc'[i].id && byId[t.id := t][order[i]] == acc'[i] {
      if i != j { assert acc[i].id != acc[j].id; }
    }
    forall a, b | 0 <= a < b < |acc| ensures acc'[a].id != acc'[b].id {
      assert acc[a].id != acc[b].id;
    }
    assert t.id in byId by { assert order[j] in byId; }
  }

  lemma StepHeld(byId: map<KeyId, Tombstone>, order: seq<KeyId>, acc: seq<Tombstone>, t: Tombstone)
    requires Represents(byId, order, acc) && t.id in byId
    ensures Represents(if Supersedes(t, byId[t.id]) then byId[t.id := t] else byId, order, Absorb(acc, t))
  {
    var j :| 0 <= j < |order| && order[j] == t.id;
    AbsorbHeld(acc, t, j);
    if Supersedes(t, acc[j]) { Replace(byId, order, acc, t, j); }
  }

  lemma StepRepresents(byId: map<KeyId, Tombstone>, order: seq<KeyId>, acc: seq<Tombstone>, t: Tombstone)
    requires Represents(byId, order, acc)
    ensures t.id !in byId ==> Represents(byId[t.id := t], order + [t.id], Absorb(acc, t))
    ensures t.id in byId ==>
              Represents(if Supersedes(t, byId[t.id]) then byId[t.id := t] else byId, order, Absorb(acc, t))
  {
    if t.id in byId { StepHeld(byId, order, acc, t); } else { StepNew(byId, order, acc, t); }
  }

  lemma {:induction false} AbsorbHeld(acc: seq<Tombstone>, t: Tombstone, j: nat)
    requires DistinctIds(acc) && j < |acc| && acc[j].id == t.id
    ensures Absorb(acc, t) == if Supersedes(t, acc[j]) then acc[j := t] else acc
  {
    assert acc == [acc[0]] + acc[1..];
    if j > 0 {
      AbsorbHeld(acc[1..], t, j - 1);
      UpdateTail(acc, j, t);
    }
  }

  lemma UpdateTail(acc: seq<Tombstone>, j: nat, t: Tombstone)
    requires 0 < j < |acc|
    ensures acc[j := t] == [acc[0]] + acc[1..][j - 1 := t]
  {}

  lemma {:induction false} AbsorbNew(acc: seq<Tombstone>, t: Tombstone)
    requires forall i :: 0 <= i < |acc| ==> acc[i].id != t.id
    ensures Absorb(acc, t) == acc + [t]
  {
    if acc != [] {
      AbsorbNew(acc[1..], t);
      assert acc + [t] == [acc[0]] + (acc[1..] + [t]);
    }
  }

  // ----------------------------------------------------------------- finalization

  function GenOf(t: Tombstone): nat { if t.gen.Finalized? then t.gen.n else 0 }

  function MaxGen(ts: seq<Tombstone>): (g: nat)
    ensures forall t :: t in ts ==> GenOf(t) <= g
  {
    if ts == [] then 0 else Max(GenOf(ts[0]), MaxGen(ts[1..]))
  }

  /** What an allocation starts from: everything the file has recorded. */
  function Base(f: GenFile): nat { Clamp(Max(Max(f.routeGen, f.applied), MaxGen(f.tombstones))) }

  /** By `at`, then by key id. */
  predicate Older(a: Tombstone, b: Tombstone) { a.at < b.at || (a.at == b.at && Less(a.id.text, b.id.text)) }

  predicate Positions(ts: seq<Tombstone>, order: seq<nat>) {
    forall k :: 0 <= k < |order| ==> order[k] < |ts|
  }

  function Place(ts: seq<Tombstone>, i: nat, order: seq<nat>): (r: seq<nat>)
    requires i < |ts| && Positions(ts, order)
    ensures Positions(ts, r)
    ensures forall x :: x in r <==> x == i || x in order
    ensures |r| == |order| + 1
  {
    if order == [] || !Older(ts[order[0]], ts[i]) then [i] + order
    else
      assert order == [order[0]] + order[1..];
      [order[0]] + Place(ts, i, order[1..])
  }

  /** The positions of the provisional tombstones from `from` on, oldest retirement first. */
  function SortedPending(ts: seq<Tombstone>, from: nat): (r: seq<nat>)
    requires from <= |ts|
    ensures Positions(ts, r)
    ensures forall x :: x in r <==> from <= x < |ts| && ts[x].gen.Provisional?
    decreases |ts| - from
  {
    if from == |ts| then []
    else if ts[from].gen.Provisional? then Place(ts, from, SortedPending(ts, from + 1))
    else SortedPending(ts, from + 1)
  }

  /** The m-th oldest provisional gets the m-th number above the base. */
  function Numbers(order: seq<nat>, base: nat, m: nat): map<nat, nat>
    requires m <= |order|
  {
    if m == 0 then map[] else Numbers(order, base, m - 1)[order[m - 1] := Clamp(base + m)]
  }

  function Stamp(ts: seq<Tombstone>, granted: map<nat, nat>): (r: seq<Tombstone>)
    ensures |r| == |ts|
    ensures forall i :: 0 <= i < |ts| ==> r[i] == if i in granted then ts[i].(gen := Finalized(granted[i])) else ts[i]
  {
    seq(|ts|, i requires 0 <= i < |ts| => if i in granted then ts[i].(gen := Finalized(granted[i])) else ts[i])
  }

  function FinalizeIn(f: GenFile, order: seq<nat>): GenFile {
    if order == [] then f
    else GenFile(Clamp(Base(f) + |order|), f.applied, Stamp(f.tombstones, Numbers(order, Base(f), |order|)))
  }

  /** `finalizeRouteGens`. */
  function Finalize(f: GenFile): GenFile { FinalizeIn(f, SortedPending(f.tombstones, 0)) }

  /** One pass over the sorted pending list, raising the counter as it goes. */
  method FinalizeRouteGens(f: GenFile) returns (r: GenFile)
    ensures r == Finalize(f)
  {
    var order := SortedPending(f.tombstones, 0);
    if order == [] { return f; }
    var g := Base(f);
    var granted: map<nat, nat> := map[];
    for m := 0 to |order|
      invariant g == Clamp(Base(f) + m)
      invariant granted == Numbers(order, Base(f), m)
    {
      g := Clamp(g + 1);
      granted := granted[order[m] := g];
    }
    r := GenFile(g, f.applied, Stamp(f.tombstones, granted));
  }

  predicate DistinctNats(s: seq<nat>) { forall i, j :: 0 <= i < j < |s| ==> s[i] != s[j] }

  lemma {:induction false} PlaceDistinct(ts: seq<Tombstone>, i: nat, order: seq<nat>)
    requires i < |ts| && Positions(ts, order)
    requires DistinctNats(order) && i !in order
    ensures DistinctNats(Place(ts, i, order))
  {
    if order != [] && Older(ts[order[0]], ts[i]) {
      PlaceDistinct(ts, i, order[1..]);
      var tail := Place(ts, i, order[1..]);
      forall j | 0 <= j < |tail| ensures tail[j] != order[0] { assert tail[j] in tail; }
    }
  }

  lemma {:induction false} PendingDistinct(ts: seq<Tombstone>, from: nat)
    requires from <= |ts|
    ensures DistinctNats(SortedPending(ts, from))
    decreases |ts| - from
  {
    if from < |ts| {
      PendingDistinct(ts, from + 1);
      if ts[from].gen.Provisional? { PlaceDistinct(ts, from, SortedPending(ts, from + 1)); }
    }
  }

  ghost predicate InOrder(ts: seq<Tombstone>, order: seq<nat>) {
    && Positions(ts, order)
    && forall i, j :: 0 <= i < j < |order| ==> !Older(ts[order[j]], ts[order[i]])
  }

  lemma OlderIsAnOrder(a: Tombstone, b: Tombstone, c: Tombstone)
    ensures !(Older(a, b) && Older(b, a))
    ensures !Older(a, b) && !Older(b, c) ==> !Older(a, c)
  {
    var (x, y, z) := (a.id.text, b.id.text, c.id.text);
    LessIsStrict(x, y);
    LessIsTotal(x, y);
    LessIsTotal(y, z);
    if Less(y, x) && Less(z, y) { LessIsTransitive(z, y, x); }
    LessIsStrict(x, z);
  }

  lemma {:induction false} PlaceInOrder(ts: seq<Tombstone>, i: nat, order: seq<nat>)
    requires i < |ts| && InOrder(ts, order)
    ensures InOrder(ts, Place(ts, i, order))
  {
    if order == [] {
    } else if !Older(ts[order[0]], ts[i]) {
      forall j | 0 <= j < |order| ensures !Older(ts[order[j]], ts[i]) {
        if j > 0 { OlderIsAnOrder(ts[order[j]], ts[order[0]], ts[i]); }
      }
    } else {
      PlaceInOrder(ts, i, order[1..]);
      var tail := Place(ts, i, order[1..]);
      forall j | 0 <= j < |tail| ensures !Older(ts[tail[j]], ts[order[0]]) {
        assert tail[j] in tail;
        OlderIsAnOrder(ts[order[0]], ts[i], ts[i]);
        if tail[j] != i {
          var q :| 0 <= q < |order[1..]| && order[1..][q] == tail[j];
          assert order[q + 1] == tail[j];
        }
      }
    }
  }

  lemma {:induction false} PendingInOrder(ts: seq<Tombstone>, from: nat)
    requires from <= |ts|
    ensures InOrder(ts, SortedPending(ts, from))
    decreases |ts| - from
  {
    if from < |ts| {
      PendingInOrder(ts, from + 1);
      if ts[from].gen.Provisional? { PlaceInOrder(ts, from, SortedPending(ts, from + 1)); }
    }
  }

  /** How many numbers a write has to allocate. */
  function PendingCount(f: GenFile): nat { |SortedPending(f.tombstones, 0)| }

  /** The i-th tombstone after a write: untouched, or given a number above everything recorded. */
  ghost predicate StampedAt(f: GenFile, r: GenFile, i: nat)
    requires i < |f.tombstones| == |r.tombstones|
  {
    if f.tombstones[i].gen.Provisional? then
      && r.tombstones[i].gen.Finalized?
      && r.tombstones[i] == f.tombstones[i].(gen := r.tombstones[i].gen)
      && Base(f) < r.tombstones[i].gen.n <= r.routeGen
    else r.tombstones[i] == f.tombstones[i]
  }

  /** Two retirements of one write: different numbers, the older retirement first. */
  ghost predicate OrderedPair(f: GenFile, r: GenFile, i: nat, j: nat)
    requires i < |f.tombstones| == |r.tombstones| && j < |f.tombstones|
  {
    i != j && f.tombstones[i].gen.Provisional? && f.tombstones[j].gen.Provisional? ==>
      && GenOf(r.tombstones[i]) != GenOf(r.tombstones[j])
      && (Older(f.tombstones[i], f.tombstones[j]) ==> GenOf(r.tombstones[i]) < GenOf(r.tombstones[j]))
  }

  /** What finalization promises: nothing provisional is left, the rest is untouched, and the new
      numbers are unique, above everything recorded, and in the order of the retirements. */
  ghost predicate WellAllocated(f: GenFile, r: GenFile) {
    && r.applied == f.applied
    && |r.tombstones| == |f.tombstones|
    && (forall i :: 0 <= i < |f.tombstones| ==> StampedAt(f, r, i))
    && (forall i, j :: 0 <= i < |f.tombstones| && 0 <= j < |f.tombstones| ==> OrderedPair(f, r, i, j))
  }

  /** A list of exactly the provisional positions. */
  ghost predicate Lists(ts: seq<Tombstone>, order: seq<nat>) {
    forall x: nat :: x in order <==> x < |ts| && ts[x].gen.Provisional?
  }

  lemma {:induction false} NumbersAt(order: seq<nat>, base: nat, m: nat, k: nat)
    requires DistinctNats(order) && k < m <= |order|
    ensures order[k] in Numbers(order, base, m) && Numbers(order, base, m)[order[k]] == Clamp(base + 1 + k)
  {
    if k < m - 1 { NumbersAt(order, base, m - 1, k); }
  }

  lemma {:induction false} NumbersOnlyAt(order: seq<nat>, base: nat, m: nat, i: nat)
    requires m <= |order| && i !in order
    ensures i !in Numbers(order, base, m)
  {
    if m > 0 {
      assert order[m - 1] in order;
      NumbersOnlyAt(order, base, m - 1, i);
    }
  }

  /** The number finalization gives the k-th oldest provisional. */
  lemma NumberAt(f: GenFile, order: seq<nat>, k: nat)
    requires DistinctNats(order) && Positions(f.tombstones, order) && k < |order|
    ensures |FinalizeIn(f, order).tombstones| == |f.tombstones|
    ensures FinalizeIn(f, order).tombstones[order[k]]
         == f.tombstones[order[k]].(gen := Finalized(Clamp(Base(f) + 1 + k)))
  {
    NumbersAt(order, Base(f), |order|, k);
  }

  lemma PairIsOrdered(f: GenFile, order: seq<nat>, p: nat, q: nat)
    requires InOrder(f.tombstones, order) && DistinctNats(order)
    requires Base(f) + |order| <= CEILING
    requires p < |order| && q < |order| && p != q
    ensures |FinalizeIn(f, order).tombstones| == |f.tombstones|
    ensures OrderedPair(f, FinalizeIn(f, order), order[p], order[q])
  {
    NumberAt(f, order, p);
    NumberAt(f, order, q);
    assert q < p ==> !Older(f.tombstones[order[p]], f.tombstones[order[q]]);
  }

  lemma RoomSuffices(f: GenFile, order: seq<nat>)
    requires Lists(f.tombstones, order) && InOrder(f.tombstones, order) && DistinctNats(order)
    requires order != [] && Base(f) + |order| <= CEILING
    ensures WellAllocated(f, FinalizeIn(f, order))
  {
    var ts, r := f.tombstones, FinalizeIn(f, order);
    forall i | 0 <= i < |ts| ensures StampedAt(f, r, i) {
      if ts[i].gen.Provisional? {
        var k :| 0 <= k < |order| && order[k] == i;
        NumberAt(f, order, k);
      } else {
        NumbersOnlyAt(order, Base(f), |order|, i);
      }
    }
    forall i, j | 0 <= i < |ts| && 0 <= j < |ts| ensures OrderedPair(f, r, i, j) {
      if i != j && ts[i].gen.Provisional? && ts[j].gen.Provisional? {
        var p :| 0 <= p < |order| && order[p] == i;
        var q :| 0 <= q < |order| && order[q] == j;
        PairIsOrdered(f, order, p, q);
      }
    }
  }

  lemma NoRoomFails(f: GenFile, order: seq<nat>)
    requires Lists(f.tombstones, order) && Positions(f.tombstones, order) && DistinctNats(order)
    requires order != [] && CEILING < Base(f) + |order|
    ensures !WellAllocated(f, FinalizeIn(f, order))
  {
    var r := FinalizeIn(f, order);
    var last := order[|order| - 1];
    assert last in order;
    NumberAt(f, order, |order| - 1);
    if |order| == 1 {
      assert !StampedAt(f, r, last);
    } else {
      var prev := order[|order| - 2];
      assert prev in order;
      NumberAt(f, order, |order| - 2);
      assert !OrderedPair(f, r, prev, last);
    }
  }

  /** Finalization keeps its promise exactly when the counter has room below its ceiling. */
  lemma FinalizeIsWellAllocated(f: GenFile)
    ensures WellAllocated(f, Finalize(f)) <==> PendingCount(f) == 0 || Base(f) + PendingCount(f) <= CEILING
    ensures PendingCount(f) > 0 ==> Finalize(f).routeGen == Clamp(Base(f) + PendingCount(f))
    ensures PendingCount(f) == 0 ==> Finalize(f) == f
  {
    var order := SortedPending(f.tombstones, 0);
    PendingDistinct(f.tombstones, 0);
    PendingInOrder(f.tombstones, 0);
    assert Lists(f.tombstones, order);
    if order == [] {
      forall i | 0 <= i < |f.tombstones| ensures StampedAt(f, f, i) { assert i !in order; }
    } else if Base(f) + |order| <= CEILING {
      RoomSuffices(f, order);
    } else {
      NoRoomFails(f, order);
    }
  }
}
