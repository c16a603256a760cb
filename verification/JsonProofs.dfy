/** The canonical printer is injective and blind to entry order; the parser undoes it. */
module JsonProofs {
  import opened JsText
  import opened Json

  // ---------------------------------------------------------- scalars round trip

  lemma Regroup(a: Text, b: Text, c: Text)
    ensures (a + b) + c == a + (b + c)
    ensures (a + b)[|a|..] == b
    ensures (a + b)[..|a|] == a
  {}

  lemma {:induction false} DigitsRoundTrip(n: nat, rest: Text)
    ensures ParseDigits(Digits(n) + rest, 0) == ParseDigits(rest, n)
  {
    if n < 10 {
      assert (Digits(n) + rest)[1..] == rest;
    } else {
      var last := [ZERO + n % 10];
      Regroup(Digits(n / 10), last, rest);
      DigitsRoundTrip(n / 10, last + rest);
      assert (last + rest)[1..] == rest;
    }
  }

  predicate StopsNumber(rest: Text) { rest == [] || !IsDigit(rest[0]) }

  lemma UnsignedRoundTrip(mag: nat, rest: Text)
    requires StopsNumber(rest)
    ensures var t := Digits(mag) + rest;
            IsDigit(t[0]) && ParseDigits(t[1..], t[0] - ZERO) == (mag, rest)
  {
    var t := Digits(mag) + rest;
    assert t[0] == Digits(mag)[0];
    DigitsRoundTrip(mag, rest);
    assert ParseDigits(t, 0) == ParseDigits(t[1..], t[0] - ZERO);
    assert ParseDigits(rest, mag) == (mag, rest);
  }

  lemma NumberRoundTrip(neg: bool, mag: nat, rest: Text)
    requires StopsNumber(rest)
    ensures ParseValue(Scalar(Num(neg, mag)) + rest) == Good(Num(neg && mag != 0, mag), rest)
  {
    var body := Digits(mag) + rest;
    UnsignedRoundTrip(mag, rest);
    if neg && mag != 0 {
      Regroup([MINUS], Digits(mag), rest);
      assert ([MINUS] + body)[1..] == body;
      assert ParseNumber([MINUS] + body) == Good(Num(true, mag), rest);
    } else {
      assert Scalar(Num(neg, mag)) == Digits(mag);
      assert ParseNumber(body) == Good(Num(false, mag), rest);
    }
  }

  lemma HexDigitRoundTrip(d: nat)
    requires d < 16
    ensures HexValue(HexDigit(d)) == d
  {}

  lemma Hex4Digits(u: CodeUnit)
    ensures u / 4096 < 16 && u / 256 % 16 < 16 && u / 16 % 16 < 16 && u % 16 < 16
    ensures ((u / 4096 * 16 + u / 256 % 16) * 16 + u / 16 % 16) * 16 + u % 16 == u
  {}

  lemma Hex4RoundTrip(u: CodeUnit, rest: Text)
    ensures ParseHex4(Hex4(u) + rest) == u
  {
    Hex4Digits(u);
    HexDigitRoundTrip(u / 4096);
    HexDigitRoundTrip(u / 256 % 16);
    HexDigitRoundTrip(u / 16 % 16);
    HexDigitRoundTrip(u % 16);
    var t := Hex4(u) + rest;
    assert t[0] == HexDigit(u / 4096) && t[1] == HexDigit(u / 256 % 16);
    assert t[2] == HexDigit(u / 16 % 16) && t[3] == HexDigit(u % 16);
  }

  lemma EscapeRoundTrip(u: CodeUnit, more: Text)
    requires EscapeUnit(u) != [u]
    ensures EscapeUnit(u)[0] == BACKSLASH
    ensures ParseEscape(EscapeUnit(u)[1..] + more) == Good(u, more)
  {
    var e := EscapeUnit(u)[1..];
    Regroup(e, more, []);
    if |EscapeUnit(u)| == 2 {
      assert e == [EscapeUnit(u)[1]];
    } else {
      assert e == [LOWER_U] + Hex4(u);
      Regroup([LOWER_U], Hex4(u), more);
      Hex4RoundTrip(u, more);
      assert (e + more)[1..] == Hex4(u) + more;
    }
  }

  lemma EscapeUnitRoundTrip(u: CodeUnit, more: Text)
    requires ParseString(more).Good?
    ensures ParseString(EscapeUnit(u) + more) == Good([u] + ParseString(more).value, ParseString(more).rest)
  {
    var t := EscapeUnit(u) + more;
    if EscapeUnit(u) == [u] {
      assert t[1..] == more;
    } else {
      EscapeRoundTrip(u, more);
      assert t[1..] == EscapeUnit(u)[1..] + more;
    }
  }

  lemma RawUnit(u: CodeUnit, more: Text)
    requires u >= 0x20 && u != QUOTE && u != BACKSLASH
    requires ParseString(more).Good?
    ensures ParseString([u] + more) == Good([u] + ParseString(more).value, ParseString(more).rest)
  {
    assert ([u] + more)[1..] == more;
  }

  lemma RegroupPair(a: CodeUnit, b: CodeUnit, mid: Text, end: Text)
    ensures ([a, b] + mid) + end == [a] + ([b] + (mid + end))
  {}

  lemma {:induction false} StringRoundTrip(s: Text, rest: Text)
    ensures ParseString(Escape(s) + ([QUOTE] + rest)) == Good(s, rest)
  {
    var end := [QUOTE] + rest;
    if s == [] {
      assert end[1..] == rest;
      assert Escape(s) + end == end;
    } else if |s| > 1 && IsLead(s[0]) && IsTrail(s[1]) {
      StringRoundTrip(s[2..], rest);
      var mid := Escape(s[2..]);
      RawUnit(s[1], mid + end);
      RawUnit(s[0], [s[1]] + (mid + end));
      RegroupPair(s[0], s[1], mid, end);
      assert [s[0]] + ([s[1]] + s[2..]) == s;
    } else {
      StringRoundTrip(s[1..], rest);
      EscapeUnitRoundTrip(s[0], Escape(s[1..]) + end);
      Regroup(EscapeUnit(s[0]), Escape(s[1..]), end);
      assert s == [s[0]] + s[1..];
    }
  }

  /** A marked text: the parser finds the opening mark and then the inside. */
  lemma Opened(mark: CodeUnit, inside: Text, close: CodeUnit, rest: Text)
    ensures var t := [mark] + inside + [close] + rest;
            t[0] == mark && t[1..] == inside + ([close] + rest)
    ensures ([close] + rest)[1..] == rest
  {}

  /** A quoted string, with what follows it. */
  lemma QuotedRoundTrip(s: Text, rest: Text)
    ensures var t := [QUOTE] + Escape(s) + [QUOTE] + rest;
            t[0] == QUOTE && ParseString(t[1..]) == Good(s, rest)
  {
    StringRoundTrip(s, rest);
    Opened(QUOTE, Escape(s), QUOTE, rest);
  }

  lemma ScalarRoundTrip(sorted: bool, v: Value, rest: Text)
    requires !v.Arr? && !v.Obj? && StopsNumber(rest)
    ensures ParseValue(Write(sorted, v) + rest) == Good(Reading(sorted, v), rest)
  {
    match v
    case Num(neg, mag) => NumberRoundTrip(neg, mag, rest);
    case Str(s) => QuotedRoundTrip(s, rest);
    case Bool(b) => Regroup(Scalar(v), rest, []);
    case Undefined => Regroup(Scalar(v), rest, []);
    case Null => Regroup(Scalar(v), rest, []);
  }

  // ------------------------------------------------------- structures round trip

  /** Nothing printed can be mistaken for the closing bracket the parser looks for first. */
  lemma WriteStarts(sorted: bool, v: Value)
    ensures Write(sorted, v) != []
    ensures Write(sorted, v)[0] != RBRACKET && Write(sorted, v)[0] != RBRACE
  {}

  lemma {:induction false} ValueRoundTrip(sorted: bool, v: Value, rest: Text)
    requires StopsNumber(rest)
    ensures ParseValue(Write(sorted, v) + rest) == Good(Reading(sorted, v), rest)
    decreases v
  {
    var t := Write(sorted, v) + rest;
    if v.Arr? {
      var inside := WriteItems(sorted, v, v.items);
      Opened(LBRACKET, inside, RBRACKET, rest);
      if v.items == [] {
        assert t[1] == RBRACKET && t[2..] == rest;
      } else {
        ItemsRoundTrip(sorted, v, v.items, rest);
        WriteStarts(sorted, v.items[0]);
        assert inside[0] == Write(sorted, v.items[0])[0];
        assert t[1] == inside[0];
      }
    } else if v.Obj? {
      var visited := Visited(sorted, v.entries);
      var inside := WriteEntries(sorted, v, visited);
      Opened(LBRACE, inside, RBRACE, rest);
      if visited == [] {
        assert t[1] == RBRACE && t[2..] == rest;
      } else {
        EntriesRoundTrip(sorted, v, visited, rest);
        assert t[1] == inside[0] == QUOTE;
      }
    } else {
      ScalarRoundTrip(sorted, v, rest);
    }
  }

  lemma RegroupList(first: Text, more: Text, end: Text)
    ensures (first + [COMMA] + more) + end == first + ([COMMA] + (more + end))
    ensures ([COMMA] + (more + end))[1..] == more + end
  {}

  lemma {:induction false} ItemsRoundTrip(sorted: bool, whole: Value, items: seq<Value>, rest: Text)
    requires forall i :: 0 <= i < |items| ==> items[i] < whole
    requires items != []
    ensures ParseItems(WriteItems(sorted, whole, items) + ([RBRACKET] + rest))
         == Good(ReadingItems(sorted, whole, items), rest)
    decreases whole, |items|
  {
    var first := Write(sorted, items[0]);
    var end := [RBRACKET] + rest;
    if |items| == 1 {
      ValueRoundTrip(sorted, items[0], end);
      assert end[1..] == rest;
      assert ReadingItems(sorted, whole, items) == [Reading(sorted, items[0])];
    } else {
      var more := WriteItems(sorted, whole, items[1..]);
      ItemsRoundTrip(sorted, whole, items[1..], rest);
      ValueRoundTrip(sorted, items[0], [COMMA] + (more + end));
      RegroupList(first, more, end);
    }
  }

  lemma RegroupEntry(key: Text, body: Text, rest: Text)
    ensures ([QUOTE] + key + [QUOTE, COLON] + body) + rest == [QUOTE] + key + [QUOTE] + ([COLON] + (body + rest))
    ensures ([COLON] + (body + rest))[1..] == body + rest
  {
    assert [QUOTE, COLON] == [QUOTE] + [COLON];
  }

  lemma {:induction false} EntryRoundTrip(sorted: bool, whole: Value, e: Entry, rest: Text)
    requires e.1 < whole && StopsNumber(rest)
    ensures ParseEntry(WriteEntry(sorted, whole, e) + rest) == Good((e.0, Reading(sorted, e.1)), rest)
    decreases whole, 0
  {
    var body := Write(sorted, e.1);
    QuotedRoundTrip(e.0, [COLON] + (body + rest));
    RegroupEntry(Escape(e.0), body, rest);
    ValueRoundTrip(sorted, e.1, rest);
  }

  lemma {:induction false} EntriesRoundTrip(sorted: bool, whole: Value, es: seq<Entry>, rest: Text)
    requires forall e :: e in es ==> e.1 < whole
    requires es != []
    ensures ParseEntries(WriteEntries(sorted, whole, es) + ([RBRACE] + rest))
         == Good(ReadingEntries(sorted, whole, es), rest)
    decreases whole, |es|
  {
    var first := WriteEntry(sorted, whole, es[0]);
    var end := [RBRACE] + rest;
    if |es| == 1 {
      EntryRoundTrip(sorted, whole, es[0], end);
      assert end[1..] == rest;
      assert ReadingEntries(sorted, whole, es) == [(es[0].0, Reading(sorted, es[0].1))];
    } else {
      var more := WriteEntries(sorted, whole, es[1..]);
      EntriesRoundTrip(sorted, whole, es[1..], rest);
      EntryRoundTrip(sorted, whole, es[0], [COMMA] + (more + end));
      RegroupList(first, more, end);
    }
  }

  /** Parsing the canonical (or wire) text of any value gives back what printing keeps of it. */
  lemma ParseUndoesWrite(sorted: bool, v: Value)
    ensures Parse(Write(sorted, v)) == Good(Reading(sorted, v), [])
  {
    ValueRoundTrip(sorted, v, []);
    assert Write(sorted, v) + [] == Write(sorted, v);
  }

  // ------------------------------------------------------------------ injectivity

  lemma {:induction false} SameReadingSameText(sorted: bool, v: Value, w: Value)
    requires Reading(sorted, v) == Reading(sorted, w)
    ensures Write(sorted, v) == Write(sorted, w)
    decreases v
  {
    match v
    case Arr(items) => SameItems(sorted, v, items, w, w.items);
    case Obj(es) => SameEntries(sorted, v, Visited(sorted, es), w, Visited(sorted, w.entries));
    case _ =>
  }

  lemma {:induction false} SameItems(sorted: bool, v: Value, xs: seq<Value>, w: Value, ys: seq<Value>)
    requires forall i :: 0 <= i < |xs| ==> xs[i] < v
    requires forall i :: 0 <= i < |ys| ==> ys[i] < w
    requires ReadingItems(sorted, v, xs) == ReadingItems(sorted, w, ys)
    ensures WriteItems(sorted, v, xs) == WriteItems(sorted, w, ys)
    decreases v, |xs|
  {
    if xs != [] {
      var rx, ry := ReadingItems(sorted, v, xs), ReadingItems(sorted, w, ys);
      assert rx[0] == ry[0] && rx[1..] == ry[1..];
      SameReadingSameText(sorted, xs[0], ys[0]);
      SameItems(sorted, v, xs[1..], w, ys[1..]);
    }
  }

  lemma {:induction false} SameEntries(sorted: bool, v: Value, xs: seq<Entry>, w: Value, ys: seq<Entry>)
    requires forall e :: e in xs ==> e.1 < v
    requires forall e :: e in ys ==> e.1 < w
    requires ReadingEntries(sorted, v, xs) == ReadingEntries(sorted, w, ys)
    ensures WriteEntries(sorted, v, xs) == WriteEntries(sorted, w, ys)
    decreases v, |xs|
  {
    if xs != [] {
      var rx, ry := ReadingEntries(sorted, v, xs), ReadingEntries(sorted, w, ys);
      assert rx[0] == ry[0] && rx[1..] == ry[1..];
      SameReadingSameText(sorted, xs[0].1, ys[0].1);
      SameEntries(sorted, v, xs[1..], w, ys[1..]);
    }
  }

  /** Two values sign alike exactly when they are the same value up to entry order, dropped
      `undefined` and the sign of zero. */
  lemma CanonicalizeIsInjective(v: Value, w: Value)
    ensures Canonicalize(v) == Canonicalize(w) <==> Reading(true, v) == Reading(true, w)
  {
    ParseUndoesWrite(true, v);
    ParseUndoesWrite(true, w);
    if Reading(true, v) == Reading(true, w) {
      SameReadingSameText(true, v, w);
    }
  }

  // -------------------------------------------------------------- order blindness

  predicate DistinctKeys(es: seq<Entry>) {
    forall i, j :: 0 <= i < j < |es| ==> es[i].0 != es[j].0
  }

  predicate Ascending(es: seq<Entry>) {
    forall i, j :: 0 <= i < j < |es| ==> Less(es[i].0, es[j].0)
  }

  lemma {:induction false} InsertAscending(e: Entry, es: seq<Entry>)
    requires Ascending(es)
    requires forall i :: 0 <= i < |es| ==> es[i].0 != e.0
    ensures Ascending(Insert(e, es))
  {
    if es == [] {
    } else if !Less(es[0].0, e.0) {
      LessIsTotal(es[0].0, e.0);
      forall i | 0 <= i < |es| ensures Less(e.0, es[i].0) {
        if i > 0 { LessIsTransitive(e.0, es[0].0, es[i].0); }
      }
    } else {
      InsertAscending(e, es[1..]);
      var tail := Insert(e, es[1..]);
      forall x | x in tail ensures Less(es[0].0, x.0) {
        assert x in multiset(tail);
        if x != e {
          assert x in multiset(es[1..]);
        }
      }
    }
  }

  lemma {:induction false} SortAscending(es: seq<Entry>)
    requires DistinctKeys(es)
    ensures Ascending(Sort(es))
  {
    if es != [] {
      SortAscending(es[1..]);
      var tail := Sort(es[1..]);
      forall i | 0 <= i < |tail| ensures tail[i].0 != es[0].0 {
        assert tail[i] in es[1..];
      }
      InsertAscending(es[0], tail);
    }
  }

  lemma {:induction false} AscendingIsUnique(xs: seq<Entry>, ys: seq<Entry>)
    requires Ascending(xs) && Ascending(ys)
    requires multiset(xs) == multiset(ys)
    ensures xs == ys
  {
    if xs == [] {
      assert |multiset(ys)| == 0;
    } else {
      assert |multiset(xs)| == |multiset(ys)|;
      assert xs[0] in multiset(ys) && ys[0] in multiset(xs);
      if xs[0] != ys[0] {
        LessIsStrict(xs[0].0, ys[0].0);
        assert false;
      }
      assert xs == [xs[0]] + xs[1..] && ys == [ys[0]] + ys[1..];
      assert multiset(xs[1..]) == multiset(xs) - multiset{xs[0]};
      assert multiset(ys[1..]) == multiset(ys) - multiset{ys[0]};
      AscendingIsUnique(xs[1..], ys[1..]);
    }
  }

  lemma {:induction false} DefinedMultiset(es: seq<Entry>, e: Entry)
    ensures multiset(Defined(es))[e] == if e.1.Undefined? then 0 else multiset(es)[e]
  {
    if es != [] {
      DefinedMultiset(es[1..], e);
      assert es == [es[0]] + es[1..];
    }
  }

  lemma {:induction false} DefinedDistinct(es: seq<Entry>)
    requires DistinctKeys(es)
    ensures DistinctKeys(Defined(es))
  {
    if es != [] {
      DefinedDistinct(es[1..]);
      var tail := Defined(es[1..]);
      forall i | 0 <= i < |tail| ensures tail[i].0 != es[0].0 {
        assert tail[i] in es[1..];
      }
    }
  }

  /** Permuting an object's entries changes nothing that is signed. */
  lemma CanonicalizeIsOrderBlind(xs: seq<Entry>, ys: seq<Entry>)
    requires DistinctKeys(xs) && DistinctKeys(ys)
    requires multiset(xs) == multiset(ys)
    ensures Canonicalize(Obj(xs)) == Canonicalize(Obj(ys))
  {
    forall e ensures multiset(Defined(xs))[e] == multiset(Defined(ys))[e] {
      DefinedMultiset(xs, e);
      DefinedMultiset(ys, e);
    }
    assert multiset(Defined(xs)) == multiset(Defined(ys));
    DefinedDistinct(xs);
    DefinedDistinct(ys);
    SortAscending(Defined(xs));
    SortAscending(Defined(ys));
    AscendingIsUnique(Sort(Defined(xs)), Sort(Defined(ys)));
    var v, w := Obj(xs), Obj(ys);
    SameVisitedSameEntries(v, w, Visited(true, xs));
  }

  lemma {:induction false} SameVisitedSameEntries(v: Value, w: Value, es: seq<Entry>)
    requires forall e :: e in es ==> e.1 < v && e.1 < w
    ensures WriteEntries(true, v, es) == WriteEntries(true, w, es)
  {
    if es != [] {
      SameVisitedSameEntries(v, w, es[1..]);
    }
  }
}
