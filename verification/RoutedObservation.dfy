/** What a destination has learned about routed origins: markers that are only ever added, against unforgeable
    proofs. */
module RoutedObservation {
  import opened JsText
  import opened Wrappers
  import opened RouteManifest

  const REQUIRE_SEAL_FROM: string := "requireSealFrom"
  const KINDS: set<string> := {REQUIRE_SEAL_FROM}

  datatype Line = Line(id: Text, kinds: seq<string>) | Malformed

  /** The insertion-ordered map of origins to what was observed about them. */
  datatype Markers = Markers(entries: map<OriginId, set<string>>, order: seq<OriginId>)

  datatype OriginId = OriginId(text: Text)

  const NONE := Markers(map[], [])

  predicate Has(m: Markers, id: Text, kind: string) { OriginId(id) in m.entries && kind in m.entries[OriginId(id)] }

  datatype Observed = Recorded | Already | AtCapacity

  datatype ObserveError = NoProof | UnknownKind

  function Recording(m: Markers, id: Text, kind: string): Markers {
    var k := OriginId(id);
    if k in m.entries then m.(entries := m.entries[k := m.entries[k] + {kind}])
    else Markers(m.entries[k := {kind}], m.order + [k])
  }

  function Observing(m: Markers, max: nat, id: Text, kind: string): (Markers, Observed) {
    if Has(m, id, kind) then (m, Already)
    else if OriginId(id) !in m.entries && |m.order| >= max then (m, AtCapacity)
    else (Recording(m, id, kind), Recorded)
  }

  function Known(kinds: seq<string>): set<string> { set k | k in kinds && k in KINDS }

  function LoadOne(m: Markers, max: nat, l: Line): Markers {
    if l.Malformed? || !IsDigest(l.id) || OriginId(l.id) in m.entries || |m.order| >= max || Known(l.kinds) == {} then m
    else Markers(m.entries[OriginId(l.id) := Known(l.kinds)], m.order + [OriginId(l.id)])
  }

  function Load(m: Markers, max: nat, lines: seq<Line>): Markers
    decreases |lines|
  {
    if lines == [] then m else Load(LoadOne(m, max, lines[0]), max, lines[1..])
  }

  predicate DistinctIds(order: seq<OriginId>) { forall i, j :: 0 <= i < j < |order| ==> order[i] != order[j] }

  ghost predicate Sized(m: Markers, max: nat) {
    && DistinctIds(m.order) && |m.order| <= max
    && (forall k :: k in m.entries <==> k in m.order)
    && (forall k :: k in m.entries ==> IsDigest(k.text))
  }

  /** No origin is tracked for nothing, or for a kind this store does not understand. */
  ghost predicate OnlyKnown(m: Markers) { forall k :: k in m.entries ==> m.entries[k] != {} && m.entries[k] <= KINDS }

  /** The lines say exactly what the markers do, in order. */
  ghost predicate Lists(lines: seq<Line>, m: Markers) {
    && |lines| == |m.order|
    && forall i :: 0 <= i < |lines| ==>
         && lines[i].Line? && lines[i].id == m.order[i].text && m.order[i] in m.entries
         && (forall k :: k in lines[i].kinds <==> k in m.entries[m.order[i]])
  }

  // --------------------------------------------------------------------------- objects

  /** An opaque handle: what it proves is that it was issued, not what it looks like. */
  class AuthenticatedOrigin {
    const originKeyId: Text

    constructor (id: Text)
      ensures originKeyId == id
    {
      originKeyId := id;
    }
  }

  /** The handles verification has issued. */
  class Issuer {
    var issued: set<AuthenticatedOrigin>

    constructor ()
      ensures issued == {}
    {
      issued := {};
    }

    /** `authenticatedOrigin`; refuses to brand what is not a key id. */
    method Issue(id: Text) returns (r: Result<AuthenticatedOrigin, ()>)
      modifies this
      ensures r.Ok? <==> IsDigest(id)
      ensures r.Ok? ==> fresh(r.value) && r.value.originKeyId == id && issued == old(issued) + {r.value}
      ensures r.Err? ==> issued == old(issued)
    {
      if !IsDigest(id) { return Err(()); }
      var handle := new AuthenticatedOrigin(id);
      issued := issued + {handle};
      r := Ok(handle);
    }
  }

  class RoutedObservationStore {
    var entries: map<OriginId, set<string>>
    var order: seq<OriginId>
    const maxEntries: nat

    function View(): Markers reads this { Markers(entries, order) }

    ghost predicate Valid() reads this { Sized(View(), maxEntries) }

    constructor (max: nat, initial: seq<Line>)
      ensures Valid() && maxEntries == max && View() == Load(NONE, max, initial)
    {
      entries, order, maxEntries := map[], [], max;
      new;
      for i := 0 to |initial|
        invariant Valid() && Load(View(), max, initial[i..]) == Load(NONE, max, initial)
      {
        assert initial[i..][1..] == initial[i + 1..];
        var l := initial[i];
        if l.Line? && IsDigest(l.id) && OriginId(l.id) !in entries && |order| < maxEntries {
          var kinds := Known(l.kinds);
          if kinds != {} { entries, order := entries[OriginId(l.id) := kinds], order + [OriginId(l.id)]; }
        }
      }
      assert initial[|initial|..] == [];
    }

    /** Only a handle that was issued may record anything; a mark once set stays, and a full store refuses newcomers. */
    method Observe(issuer: Issuer, proof: AuthenticatedOrigin, kind: string) returns (r: Result<Observed, ObserveError>)
      requires Valid()
      requires IsDigest(proof.originKeyId)
      modifies this
      ensures Valid()
      ensures r.Err? <==> proof !in issuer.issued || kind !in KINDS
      ensures r.Err? ==> View() == old(View())
      ensures r.Ok? ==> (View(), r.value) == Observing(old(View()), maxEntries, proof.originKeyId, kind)
    {
      if proof !in issuer.issued { return Err(NoProof); }
      if kind !in KINDS { return Err(UnknownKind); }
      var id := OriginId(proof.originKeyId);
      if id in entries {
        if kind in entries[id] { return Ok(Already); }
        entries := entries[id := entries[id] + {kind}];
        return Ok(Recorded);
      }
      if |order| >= maxEntries { return Ok(AtCapacity); }
      entries, order := entries[id := {kind}], order + [id];
      r := Ok(Recorded);
    }

    method Snapshot() returns (lines: seq<Line>)
      requires Valid()
      ensures Lists(lines, View())
    {
      lines := [];
      for i := 0 to |order|
        invariant |lines| == i
        invariant forall j :: 0 <= j < i ==>
                    && lines[j].Line? && lines[j].id == order[j].text && order[j] in entries
                    && (forall k :: k in lines[j].kinds <==> k in entries[order[j]])
      {
        assert order[i] in entries;
        var kinds: seq<string> := [];
        var todo := entries[order[i]];
        while todo != {}
          invariant forall k :: k in kinds || k in todo <==> k in entries[order[i]]
          decreases todo
        {
          var k :| k in todo;
          todo := todo - {k};
          kinds := kinds + [k];
        }
        lines := lines + [Line(order[i].text, kinds)];
      }
    }
  }

  // ---------------------------------------------------------------------------- proofs

  /** Whatever is observed, every marker stays, and nobody is evicted. */
  lemma MarkersOnlyGrow(m: Markers, max: nat, id: Text, kind: string)
    requires Sized(m, max) && OnlyKnown(m) && IsDigest(id) && kind in KINDS
    ensures var (after, r) := Observing(m, max, id, kind);
            && Sized(after, max) && OnlyKnown(after)
            && (forall k, x :: k in m.entries && x in m.entries[k] ==> k in after.entries && x in after.entries[k])
            && (r == Already <==> Has(m, id, kind))
            && (r != AtCapacity <==> Has(after, id, kind))
            && (forall i: Text, x :: Has(after, i, x) ==> Has(m, i, x) || (i == id && x == kind))
            && (r == AtCapacity ==> after == m && |m.order| == max)
  {
  }

  /** Loading the written markers brings back exactly them. */
  lemma ReloadKeepsMarkers(m: Markers, max: nat, lines: seq<Line>)
    requires Sized(m, max) && OnlyKnown(m) && Lists(lines, m)
    ensures Load(NONE, max, lines) == m
  {
    assert m.order[..0] == [] && lines[0..] == lines;
    var none: map<OriginId, set<string>> := map[];
    LoadFrom(m, max, lines, 0, Markers(none, []));
  }

  lemma {:induction false} LoadFrom(m: Markers, max: nat, lines: seq<Line>, i: nat, at: Markers)
    requires Sized(m, max) && OnlyKnown(m) && Lists(lines, m) && i <= |lines|
    requires at.order == m.order[..i]
    requires forall k :: k in at.entries <==> k in at.order
    requires forall k :: k in at.entries ==> at.entries[k] == m.entries[k]
    ensures Load(at, max, lines[i..]) == m
    decreases |lines| - i
  {
    if i == |lines| {
      assert lines[i..] == [] && m.order[..i] == m.order;
      assert at.entries == m.entries;
    } else {
      var k := m.order[i];
      assert lines[i..][1..] == lines[i + 1..];
      assert m.order[..i + 1] == m.order[..i] + [k];
      assert k !in m.order[..i];
      assert k in m.entries && Known(lines[i].kinds) == m.entries[k];
      LoadFrom(m, max, lines, i + 1, Markers(at.entries[k := m.entries[k]], at.order + [k]));
    }
  }
}
