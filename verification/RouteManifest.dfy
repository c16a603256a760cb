/** The signed header of a routed message: its validation, its signed form, and what a signature on it proves. */
module RouteManifest {
  import opened JsText
  import opened Wrappers
  import opened Keys
  import opened Json
  import opened JsonProofs

  const MAX_SAFE: nat := 0x1F_FFFF_FFFF_FFFF

  const DOMAIN: Text := Ascii("peerhailer/routed-block")
  const SHA256: Text := Ascii("sha256")
  const CLEAR: Text := Ascii("clear")
  const SEALED: Text := Ascii("sealed")

  /** The signed fields, in the order they are signed. */
  const FIELDS: seq<Text> := [
    Ascii("domain"), Ascii("version"), Ascii("originKeyId"), Ascii("destinationKeyId"), Ascii("messageId"),
    Ascii("blockIndex"), Ascii("blockCount"), Ascii("issuedAt"), Ascii("expiresAt"), Ascii("payloadMode"),
    Ascii("payloadDigestAlgorithm"), Ascii("payloadDigest")]

  datatype Manifest = Manifest(origin: Text, destination: Text, messageId: Text, blockIndex: nat, blockCount: nat,
                               issuedAt: nat, expiresAt: nat, sealed: bool, digest: Text)

  datatype Problem = NotAnObject | MissingField | UnexpectedFields | WrongDomain | UnknownVersion | BadOrigin
    | BadDestination | BadMessageId | BadBlock | BlockOutOfRange | BadTimestamps | ExpiresTooSoon | BadMode
    | UnknownDigestAlgorithm | BadDigest

  // -------------------------------------------------------------------- validation

  /** The value of a base64url digit, -1 for anything else. */
  function Base64Url(u: CodeUnit): (d: int)
    ensures -1 <= d < 64
  {
    if 0x41 <= u < 0x5B then u - 0x41
    else if 0x61 <= u < 0x7B then u - 0x61 + 26
    else if IsDigit(u) then u - ZERO + 52
    else if u == 0x2D then 62
    else if u == 0x5F then 63
    else -1
  }

  predicate IsBase64Url(t: Text, n: nat) { |t| == n && forall i :: 0 <= i < n ==> Base64Url(t[i]) >= 0 }

  predicate IsDigest(t: Text) { IsBase64Url(t, 43) }

  /** Sixteen bytes in their one spelling: the last digit's four spare bits are zero. */
  predicate IsMessageId(t: Text) { IsBase64Url(t, 22) && Base64Url(t[21]) % 16 == 0 }

  predicate IsUint(v: Value) { v.Num? && !v.neg && v.mag <= MAX_SAFE }

  function Get(es: seq<Entry>, k: Text): Value {
    if es == [] then Undefined else if es[0].0 == k then es[0].1 else Get(es[1..], k)
  }

  predicate Has(es: seq<Entry>, k: Text) { exists i :: 0 <= i < |es| && es[i].0 == k }

  predicate HasDigest(v: Value) { v.Str? && IsDigest(v.s) }

  predicate HasAll(es: seq<Entry>, names: seq<Text>) {
    names == [] || (Has(es, names[0]) && HasAll(es, names[1..]))
  }

  predicate HasOnly(es: seq<Entry>, names: seq<Text>) {
    es == [] || (es[0].0 in names && HasOnly(es[1..], names))
  }

  /** `manifestProblem`, its checks in order, and the fields it has then established. */
  function Check(v: Value): Result<Manifest, Problem> {
    if !v.Obj? && !v.Arr? then Err(NotAnObject)
    else if v.Arr? || !HasAll(v.entries, FIELDS) then Err(MissingField)
    else if |v.entries| != |FIELDS| || !HasOnly(v.entries, FIELDS) then Err(UnexpectedFields)
    else CheckFields(SignedItems(v.entries))
  }

  /** `toSignedArray`. */
  function SignedItems(es: seq<Entry>): (r: seq<Value>)
    ensures |r| == 12 && forall i :: 0 <= i < 12 ==> r[i] == Get(es, FIELDS[i])
  {
    seq(12, i requires 0 <= i < 12 => Get(es, FIELDS[i]))
  }

  function CheckFields(f: seq<Value>): Result<Manifest, Problem>
    requires |f| == 12
  {
    if f[0] != Str(DOMAIN) then Err(WrongDomain)
    else if f[1] != Num(false, 1) then Err(UnknownVersion)
    else if !HasDigest(f[2]) then Err(BadOrigin)
    else if !HasDigest(f[3]) then Err(BadDestination)
    else if !f[4].Str? || !IsMessageId(f[4].s) then Err(BadMessageId)
    else if !IsUint(f[5]) || !IsUint(f[6]) then Err(BadBlock)
    else if f[6].mag < 1 || f[5].mag >= f[6].mag then Err(BlockOutOfRange)
    else if !IsUint(f[7]) || !IsUint(f[8]) then Err(BadTimestamps)
    else if f[8].mag <= f[7].mag then Err(ExpiresTooSoon)
    else if f[9] != Str(CLEAR) && f[9] != Str(SEALED) then Err(BadMode)
    else if f[10] != Str(SHA256) then Err(UnknownDigestAlgorithm)
    else if !HasDigest(f[11]) then Err(BadDigest)
    else Ok(Manifest(f[2].s, f[3].s, f[4].s, f[5].mag, f[6].mag, f[7].mag, f[8].mag, f[9] == Str(SEALED), f[11].s))
  }

  // -------------------------------------------------------------- building, signing

  /** The values of the signed fields. */
  function Items(m: Manifest): (r: seq<Value>)
    ensures |r| == 12
  {
    [Str(DOMAIN), Num(false, 1), Str(m.origin), Str(m.destination), Str(m.messageId), Num(false, m.blockIndex),
     Num(false, m.blockCount), Num(false, m.issuedAt), Num(false, m.expiresAt),
     Str(if m.sealed then SEALED else CLEAR), Str(SHA256), Str(m.digest)]
  }

  function ToValue(m: Manifest): Value {
    Obj(seq(12, i requires 0 <= i < 12 => (FIELDS[i], Items(m)[i])))
  }

  function SignedText(m: Manifest): Text { Canonicalize(Arr(Items(m))) }

  /** `buildManifest`, which throws on an invalid result. */
  function Build(m: Manifest): Result<Value, Problem> {
    match Check(ToValue(m))
    case Err(e) => Err(e)
    case Ok(_) => Ok(ToValue(m))
  }

  /** An ideal Ed25519 signature names its signer and the exact text signed. */
  datatype Signature = Signed(signer: KeyId, text: Text) | NotASignature

  /** As it travels: base64, in its one spelling or not. */
  datatype WireSignature = WireSignature(canonical: bool, signature: Signature)

  /** `verifyManifest`. */
  predicate Verifies(v: Value, sig: WireSignature, publicKey: Option<Key>) {
    && Check(v).Ok?
    && sig.canonical
    && KeyIdOf(publicKey).Some?
    && KeyIdOf(publicKey).value.text == Check(v).value.origin
    && sig.signature == Signed(KeyIdOf(publicKey).value, Canonicalize(Arr(SignedItems(v.entries))))
  }

  // ------------------------------------------------------------------------ proofs

  /** What the format requires of a manifest. */
  predicate WellFormed(m: Manifest) {
    && IsDigest(m.origin) && IsDigest(m.destination) && IsDigest(m.digest) && IsMessageId(m.messageId)
    && m.blockIndex < m.blockCount <= MAX_SAFE
    && m.issuedAt < m.expiresAt <= MAX_SAFE
  }

  lemma NamesDiffer()
    ensures forall i, j :: 0 <= i < j < 12 ==> FIELDS[i] != FIELDS[j]
  {
    assert FIELDS[2][0] == 0x6F && FIELDS[9][0] == 0x70;
    assert FIELDS[4][0] == 0x6D && FIELDS[8][0] == 0x65;
    assert FIELDS[5][5] == 0x49 && FIELDS[6][5] == 0x43;
    forall i, j | 0 <= i < j < 12 ensures FIELDS[i] != FIELDS[j] {
      if |FIELDS[i]| == |FIELDS[j]| { assert (i, j) in {(2, 9), (4, 8), (5, 6)}; }
    }
  }

  lemma {:induction false} GetAt(es: seq<Entry>, i: nat)
    requires i < |es| && forall j :: 0 <= j < i ==> es[j].0 != es[i].0
    ensures Get(es, es[i].0) == es[i].1
  {
    if i > 0 { GetAt(es[1..], i - 1); }
  }

  lemma BuiltItems(m: Manifest)
    ensures SignedItems(ToValue(m).entries) == Items(m)
  {
    NamesDiffer();
    var es := ToValue(m).entries;
    forall i | 0 <= i < 12 ensures SignedItems(es)[i] == Items(m)[i] { GetAt(es, i); }
  }

  lemma {:induction false} HasEach(es: seq<Entry>, names: seq<Text>)
    requires forall i :: 0 <= i < |names| ==> Has(es, names[i])
    ensures HasAll(es, names)
  {
    if names != [] { HasEach(es, names[1..]); }
  }

  lemma {:induction false} HasOnlyThose(es: seq<Entry>, names: seq<Text>)
    requires forall i :: 0 <= i < |es| ==> es[i].0 in names
    ensures HasOnly(es, names)
  {
    if es != [] { HasOnlyThose(es[1..], names); }
  }

  lemma ModesDiffer()
    ensures CLEAR != SEALED
  {
    assert |CLEAR| != |SEALED|;
  }

  /** Building and checking undo each other on exactly the well-formed manifests. */
  lemma BuildThenCheck(m: Manifest)
    ensures WellFormed(m) <==> Check(ToValue(m)) == Ok(m)
    ensures Build(m).Ok? <==> WellFormed(m)
  {
    BuiltItems(m);
    ModesDiffer();
    var es := ToValue(m).entries;
    forall i | 0 <= i < 12 ensures Has(es, FIELDS[i]) && es[i].0 in FIELDS { assert es[i].0 == FIELDS[i]; }
    HasEach(es, FIELDS);
    HasOnlyThose(es, FIELDS);
    CheckedItems(Items(m), m);
  }

  lemma CheckedItems(f: seq<Value>, m: Manifest)
    requires |f| == 12
    ensures CheckFields(f) == Ok(m) ==> f == Items(m) && WellFormed(m)
    ensures f == Items(m) ==> (CheckFields(f).Ok? <==> WellFormed(m))
    ensures f == Items(m) && WellFormed(m) ==> CheckFields(f) == Ok(m)
  {
    ModesDiffer();
    if CheckFields(f) == Ok(m) {
      forall i | 0 <= i < 12 ensures f[i] == Items(m)[i] {
        assert i == 0 || i == 1 || i == 2 || i == 3 || i == 4 || i == 5
               || i == 6 || i == 7 || i == 8 || i == 9 || i == 10 || i == 11;
      }
    }
  }

  /** What passed the check is signed as the fields the check established. */
  lemma CheckedIsSigned(v: Value)
    requires Check(v).Ok?
    ensures WellFormed(Check(v).value)
    ensures SignedItems(v.entries) == Items(Check(v).value)
  {
    CheckedItems(SignedItems(v.entries), Check(v).value);
  }

  /** A well-formed manifest, signed by its origin, verifies. */
  lemma SignedVerifies(m: Manifest, key: Option<Key>)
    requires WellFormed(m) && KeyIdOf(key).Some? && KeyIdOf(key).value.text == m.origin
    ensures Check(ToValue(m)) == Ok(m)
    ensures Verifies(ToValue(m), WireSignature(true, Signed(KeyIdOf(key).value, SignedText(m))), key)
  {
    BuildThenCheck(m);
    BuiltItems(m);
  }

  lemma {:induction false} PlainItems(whole: Value, items: seq<Value>)
    requires forall i :: 0 <= i < |items| ==> items[i] < whole
    requires forall i :: 0 <= i < |items| ==> items[i].Str? || (items[i].Num? && !items[i].neg)
    ensures ReadingItems(true, whole, items) == items
    decreases |items|
  {
    if items != [] { PlainItems(whole, items[1..]); }
  }

  lemma ManifestReadsAsIs(m: Manifest)
    ensures Reading(true, Arr(Items(m))) == Arr(Items(m))
  {
    PlainItems(Arr(Items(m)), Items(m));
  }

  /** One signed text, one manifest: no field can be reordered, dropped or reinterpreted. */
  lemma SignedTextDetermines(a: Manifest, b: Manifest)
    requires SignedText(a) == SignedText(b)
    ensures a == b
  {
    ManifestReadsAsIs(a);
    ManifestReadsAsIs(b);
    CanonicalizeIsInjective(Arr(Items(a)), Arr(Items(b)));
    ModesDiffer();
    var (x, y) := (Items(a), Items(b));
    assert x[2] == y[2] && x[3] == y[3] && x[4] == y[4] && x[5] == y[5] && x[6] == y[6] && x[7] == y[7];
    assert x[8] == y[8] && x[9] == y[9] && x[11] == y[11];
  }

  /** An array that opens with the manifest domain: the only payloads that sign as a manifest does. */
  predicate InDomain(p: Value) { p.Arr? && p.items != [] && p.items[0] == Str(DOMAIN) }

  /** A signature over any other payload, a peer record included, never verifies as one over a manifest. */
  lemma DomainsAreSeparate(p: Value, m: Manifest)
    requires Canonicalize(p) == SignedText(m)
    ensures InDomain(p)
  {
    ManifestReadsAsIs(m);
    CanonicalizeIsInjective(p, Arr(Items(m)));
    assert Reading(true, p) == Arr(Items(m));
    assert Reading(true, p.items[0]) == Items(m)[0];
  }
}
