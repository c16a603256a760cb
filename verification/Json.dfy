/** JSON values, the canonical text that signatures cover, and a parser that undoes it. */
module Json {
  import opened JsText

  /** A JavaScript value of the kind `JSON.stringify` is given. Object entries keep their own order. */
  datatype Value =
    | Undefined
    | Null
    | Bool(b: bool)
    | Num(neg: bool, mag: nat)
    | Str(s: Text)
    | Arr(items: seq<Value>)
    | Obj(entries: seq<(Text, Value)>)

  type Entry = (Text, Value)

  const QUOTE: CodeUnit := 0x22
  const COMMA: CodeUnit := 0x2C
  const MINUS: CodeUnit := 0x2D
  const ZERO: CodeUnit := 0x30
  const COLON: CodeUnit := 0x3A
  const LBRACKET: CodeUnit := 0x5B
  const BACKSLASH: CodeUnit := 0x5C
  const RBRACKET: CodeUnit := 0x5D
  const LOWER_U: CodeUnit := 0x75
  const LBRACE: CodeUnit := 0x7B
  const RBRACE: CodeUnit := 0x7D
  const NULL_TEXT: Text := [0x6E, 0x75, 0x6C, 0x6C]
  const TRUE_TEXT: Text := [0x74, 0x72, 0x75, 0x65]
  const FALSE_TEXT: Text := [0x66, 0x61, 0x6C, 0x73, 0x65]

  // ------------------------------------------------------------------ scalars

  function Digits(n: nat): (t: Text)
    ensures t != [] && forall i :: 0 <= i < |t| ==> IsDigit(t[i])
  {
    if n < 10 then [ZERO + n] else Digits(n / 10) + [ZERO + n % 10]
  }

  predicate IsDigit(u: CodeUnit) { ZERO <= u < ZERO + 10 }

  predicate IsLead(u: CodeUnit) { 0xD800 <= u < 0xDC00 }

  predicate IsTrail(u: CodeUnit) { 0xDC00 <= u < 0xE000 }

  function HexDigit(d: nat): (u: CodeUnit)
    requires d < 16
  {
    if d < 10 then ZERO + d else 0x61 + (d - 10)
  }

  function Hex4(u: CodeUnit): Text {
    [HexDigit(u / 4096), HexDigit(u / 256 % 16), HexDigit(u / 16 % 16), HexDigit(u % 16)]
  }

  /** How one code unit is written inside a string literal: section 7 of RFC 8259, with
      `JSON.stringify`'s choice of short escapes and its escaping of lone surrogates. */
  function EscapeUnit(u: CodeUnit): Text {
    if u == QUOTE || u == BACKSLASH then [BACKSLASH, u]
    else if u == 0x08 then [BACKSLASH, 0x62]
    else if u == 0x09 then [BACKSLASH, 0x74]
    else if u == 0x0A then [BACKSLASH, 0x6E]
    else if u == 0x0C then [BACKSLASH, 0x66]
    else if u == 0x0D then [BACKSLASH, 0x72]
    else if u < 0x20 || IsLead(u) || IsTrail(u) then [BACKSLASH, LOWER_U] + Hex4(u)
    else [u]
  }

  function Escape(s: Text): Text {
    if s == [] then []
    else if |s| > 1 && IsLead(s[0]) && IsTrail(s[1]) then [s[0], s[1]] + Escape(s[2..])
    else EscapeUnit(s[0]) + Escape(s[1..])
  }

  /** `JSON.stringify` on anything that is not an array or object, with `undefined` read as null. */
  function Scalar(v: Value): Text
    requires !v.Arr? && !v.Obj?
  {
    match v
    case Undefined => NULL_TEXT
    case Null => NULL_TEXT
    case Bool(b) => if b then TRUE_TEXT else FALSE_TEXT
    case Num(neg, mag) => (if neg && mag != 0 then [MINUS] else []) + Digits(mag)
    case Str(s) => [QUOTE] + Escape(s) + [QUOTE]
  }

  // ------------------------------------------------------- canonical printing

  function Defined(es: seq<Entry>): (r: seq<Entry>)
    ensures forall e :: e in r ==> e in es && !e.1.Undefined?
  {
    if es == [] then []
    else if es[0].1.Undefined? then Defined(es[1..])
    else [es[0]] + Defined(es[1..])
  }

  function Insert(e: Entry, es: seq<Entry>): (r: seq<Entry>)
    ensures multiset(r) == multiset{e} + multiset(es)
  {
    if es == [] || !Less(es[0].0, e.0) then [e] + es
    else
      assert es == [es[0]] + es[1..];
      [es[0]] + Insert(e, es[1..])
  }

  /** The entries in ascending key order. */
  function Sort(es: seq<Entry>): (r: seq<Entry>)
    ensures multiset(r) == multiset(es)
    ensures forall e :: e in r <==> e in es
  {
    if es == [] then []
    else
      assert es == [es[0]] + es[1..];
      var r := Insert(es[0], Sort(es[1..]));
      assert forall e :: e in r <==> e in multiset(r);
      assert forall e :: e in es <==> e in multiset(es);
      r
  }

  /** The entries a printer visits: `canonicalize` sorts them, `JSON.stringify` does not. */
  function Visited(sorted: bool, es: seq<Entry>): (r: seq<Entry>)
    ensures forall e :: e in r ==> e in es && !e.1.Undefined?
  {
    if sorted then Sort(Defined(es)) else Defined(es)
  }

  /** `canonicalize` (sorted) and `JSON.stringify` (unsorted) differ only in the order of entries. */
  function Write(sorted: bool, v: Value): Text
    decreases v
  {
    match v
    case Arr(items) => [LBRACKET] + WriteItems(sorted, v, items) + [RBRACKET]
    case Obj(es) => [LBRACE] + WriteEntries(sorted, v, Visited(sorted, es)) + [RBRACE]
    case _ => Scalar(v)
  }

  function WriteItems(sorted: bool, whole: Value, items: seq<Value>): Text
    requires forall i :: 0 <= i < |items| ==> items[i] < whole
    decreases whole, |items|
  {
    if items == [] then []
    else if |items| == 1 then Write(sorted, items[0])
    else Write(sorted, items[0]) + [COMMA] + WriteItems(sorted, whole, items[1..])
  }

  function WriteEntry(sorted: bool, whole: Value, e: Entry): Text
    requires e.1 < whole
    decreases whole, 0
  {
    [QUOTE] + Escape(e.0) + [QUOTE, COLON] + Write(sorted, e.1)
  }

  function WriteEntries(sorted: bool, whole: Value, es: seq<Entry>): Text
    requires forall e :: e in es ==> e.1 < whole
    decreases whole, |es|
  {
    if es == [] then []
    else if |es| == 1 then WriteEntry(sorted, whole, es[0])
    else WriteEntry(sorted, whole, es[0]) + [COMMA] + WriteEntries(sorted, whole, es[1..])
  }

  /** The canonical text of a value: the bytes both sides of a signature agree on. */
  function Canonicalize(v: Value): Text { Write(true, v) }

  /** The wire text of a value. */
  function Stringify(v: Value): Text { Write(false, v) }

  // ------------------------------------------------------- what survives printing

  /** The value a reader of the text gets: `undefined` is null or gone, -0 is 0, entries as visited. */
  function Reading(sorted: bool, v: Value): Value
    decreases v
  {
    match v
    case Undefined => Null
    case Num(neg, mag) => Num(neg && mag != 0, mag)
    case Arr(items) => Arr(ReadingItems(sorted, v, items))
    case Obj(es) => Obj(ReadingEntries(sorted, v, Visited(sorted, es)))
    case _ => v
  }

  function ReadingItems(sorted: bool, whole: Value, items: seq<Value>): (r: seq<Value>)
    requires forall i :: 0 <= i < |items| ==> items[i] < whole
    ensures |r| == |items|
    decreases whole, |items|
  {
    if items == [] then [] else [Reading(sorted, items[0])] + ReadingItems(sorted, whole, items[1..])
  }

  function ReadingEntries(sorted: bool, whole: Value, es: seq<Entry>): (r: seq<Entry>)
    requires forall e :: e in es ==> e.1 < whole
    ensures |r| == |es|
    decreases whole, |es|
  {
    if es == [] then [] else [(es[0].0, Reading(sorted, es[0].1))] + ReadingEntries(sorted, whole, es[1..])
  }

  // ------------------------------------------------------------------- parsing

  function HexValue(u: CodeUnit): (d: int)
    ensures -1 <= d < 16
  {
    if IsDigit(u) then u - ZERO else if 0x61 <= u < 0x67 then u - 0x61 + 10 else -1
  }

  function ParseHex4(t: Text): (r: int)
    requires |t| >= 4
    ensures -1 <= r < 0x1_0000
  {
    var (a, b, c, d) := (HexValue(t[0]), HexValue(t[1]), HexValue(t[2]), HexValue(t[3]));
    if a < 0 || b < 0 || c < 0 || d < 0 then -1 else ((a * 16 + b) * 16 + c) * 16 + d
  }

  datatype Parsed<T> = Bad | Good(value: T, rest: Text)

  /** One code unit after a backslash, and the text after its escape. */
  function ParseEscape(t: Text): (r: Parsed<CodeUnit>)
    ensures r.Good? ==> |r.rest| < |t|
  {
    if t == [] then Bad
    else if t[0] == QUOTE || t[0] == BACKSLASH then Good(t[0], t[1..])
    else if t[0] == 0x62 then Good(0x08, t[1..])
    else if t[0] == 0x74 then Good(0x09, t[1..])
    else if t[0] == 0x6E then Good(0x0A, t[1..])
    else if t[0] == 0x66 then Good(0x0C, t[1..])
    else if t[0] == 0x72 then Good(0x0D, t[1..])
    else if t[0] == LOWER_U && |t| >= 5 && ParseHex4(t[1..]) >= 0 then Good(ParseHex4(t[1..]), t[5..])
    else Bad
  }

  /** The rest of a string literal, its opening quote already read. */
  function ParseString(t: Text): (r: Parsed<Text>)
    ensures r.Good? ==> |r.rest| < |t|
    decreases |t|
  {
    if t == [] || t[0] < 0x20 then Bad
    else if t[0] == QUOTE then Good([], t[1..])
    else if t[0] == BACKSLASH then
      match ParseEscape(t[1..])
      case Bad => Bad
      case Good(u, rest) =>
        (match ParseString(rest)
         case Bad => Bad
         case Good(s, rest') => Good([u] + s, rest'))
    else
      match ParseString(t[1..])
      case Bad => Bad
      case Good(s, rest) => Good([t[0]] + s, rest)
  }

  function ParseDigits(t: Text, acc: nat): (r: (nat, Text))
    ensures |r.1| <= |t|
  {
    if t != [] && IsDigit(t[0]) then ParseDigits(t[1..], acc * 10 + (t[0] - ZERO)) else (acc, t)
  }

  function ParseNumber(t: Text): (r: Parsed<Value>)
    ensures r.Good? ==> |r.rest| < |t|
  {
    var neg := t != [] && t[0] == MINUS;
    var body := if neg then t[1..] else t;
    if body == [] || !IsDigit(body[0]) then Bad
    else
      var (n, rest) := ParseDigits(body[1..], body[0] - ZERO);
      Good(Num(neg && n != 0, n), rest)
  }

  function ParseValue(t: Text): (r: Parsed<Value>)
    ensures r.Good? ==> |r.rest| < |t|
    decreases |t|, 0
  {
    if t == [] then Bad
    else if t[0] == QUOTE then
      match ParseString(t[1..])
      case Bad => Bad
      case Good(s, rest) => Good(Str(s), rest)
    else if t[0] == LBRACKET then
      if |t| > 1 && t[1] == RBRACKET then Good(Arr([]), t[2..])
      else
        match ParseItems(t[1..])
        case Bad => Bad
        case Good(items, rest) => Good(Arr(items), rest)
    else if t[0] == LBRACE then
      if |t| > 1 && t[1] == RBRACE then Good(Obj([]), t[2..])
      else
        match ParseEntries(t[1..])
        case Bad => Bad
        case Good(es, rest) => Good(Obj(es), rest)
    else if t[0] == NULL_TEXT[0] then if NULL_TEXT <= t then Good(Null, t[4..]) else Bad
    else if t[0] == TRUE_TEXT[0] then if TRUE_TEXT <= t then Good(Bool(true), t[4..]) else Bad
    else if t[0] == FALSE_TEXT[0] then if FALSE_TEXT <= t then Good(Bool(false), t[5..]) else Bad
    else ParseNumber(t)
  }

  /** One or more values and the closing bracket. */
  function ParseItems(t: Text): (r: Parsed<seq<Value>>)
    ensures r.Good? ==> |r.rest| < |t|
    decreases |t|, 1
  {
    match ParseValue(t)
    case Bad => Bad
    case Good(v, rest) =>
      if rest == [] then Bad
      else if rest[0] == RBRACKET then Good([v], rest[1..])
      else if rest[0] == COMMA then
        (match ParseItems(rest[1..])
         case Bad => Bad
         case Good(vs, rest') => Good([v] + vs, rest'))
      else Bad
  }

  function ParseEntry(t: Text): (r: Parsed<Entry>)
    ensures r.Good? ==> |r.rest| < |t|
    decreases |t|, 1
  {
    if t == [] || t[0] != QUOTE then Bad
    else
      match ParseString(t[1..])
      case Bad => Bad
      case Good(k, rest) =>
        if rest == [] || rest[0] != COLON then Bad
        else
          match ParseValue(rest[1..])
          case Bad => Bad
          case Good(v, rest') => Good((k, v), rest')
  }

  /** One or more entries and the closing brace. */
  function ParseEntries(t: Text): (r: Parsed<seq<Entry>>)
    ensures r.Good? ==> |r.rest| < |t|
    decreases |t|, 2
  {
    match ParseEntry(t)
    case Bad => Bad
    case Good(e, rest) =>
      if rest == [] then Bad
      else if rest[0] == RBRACE then Good([e], rest[1..])
      else if rest[0] == COMMA then
        (match ParseEntries(rest[1..])
         case Bad => Bad
         case Good(es, rest') => Good([e] + es, rest'))
      else Bad
  }

  /** A whole text as one value. */
  function Parse(t: Text): (r: Parsed<Value>) {
    match ParseValue(t)
    case Bad => Bad
    case Good(v, rest) => if rest == [] then Good(v, []) else Bad
  }
}
