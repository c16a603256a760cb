/** Every line the strict parser accepts, and why it refuses one; the lenient parser and the words before a command. */
module CliArgsLaws {
  import opened Wrappers
  import opened CliArgs
  import opened CliArgsProofs

  // ---------------------------------------------------------------------------- tokens

  predicate Letter(c: char) { 'a' <= c <= 'z' || 'A' <= c <= 'Z' }

  predicate NameChar(c: char) { Letter(c) || '0' <= c <= '9' || c == '-' }

  /** Name characters from here up to there, which is the end or an equals sign. */
  predicate NameUpTo(t: string, from: nat, n: nat) {
    from <= n <= |t| && (n == |t| || t[n] == '=') && forall i :: from <= i < n ==> NameChar(t[i])
  }

  /** Two dashes, a letter, and such a name. */
  predicate OptionShaped(t: string) {
    |t| > 2 && t[0] == '-' && t[1] == '-' && Letter(t[2]) && exists n :: 3 <= n <= |t| && NameUpTo(t, 3, n)
  }

  /** The same, to the end. */
  predicate BareWordShaped(t: string) {
    |t| > 2 && t[0] == '-' && t[1] == '-' && Letter(t[2]) && forall i :: 3 <= i < |t| ==> NameChar(t[i])
  }

  predicate StartsWithDashes(t: string) { |t| >= 2 && t[0] == '-' && t[1] == '-' }

  lemma {:induction false} NameThenValueIff(t: string, from: nat)
    requires from <= |t|
    ensures NameThenValue(t[from..]) <==> exists n :: from <= n <= |t| && NameUpTo(t, from, n)
    decreases |t| - from
  {
    if from == |t| || t[from] == '=' {
      assert NameUpTo(t, from, from);
    } else {
      var next := from + 1;
      NameThenValueIff(t, next);
      assert t[from..][1..] == t[next..];
      if n :| next <= n <= |t| && NameUpTo(t, next, n) { assert NameChar(t[from]) ==> NameUpTo(t, from, n); }
      if n :| from <= n <= |t| && NameUpTo(t, from, n) { assert NameUpTo(t, next, n); }
    }
  }

  lemma {:induction false} NameThenEndIff(s: string)
    ensures NameThenEnd(s) <==> forall i :: 0 <= i < |s| ==> NameChar(s[i])
  {
    if s != "" {
      NameThenEndIff(s[1..]);
      assert forall i :: 0 < i < |s| ==> s[i] == s[1..][i - 1];
      assert (forall i :: 0 <= i < |s[1..]| ==> NameChar(s[1..][i]))
             <==> forall i :: 0 < i < |s| ==> NameChar(s[i]) by {
        assert forall i :: 0 <= i < |s[1..]| ==> s[1..][i] == s[i + 1];
      }
    }
  }

  /** What the parsers take for an option when they look ahead. */
  lemma OptionShapedIff(t: string)
    ensures Dashed(t) <==> StartsWithDashes(t)
    ensures IsLongFlag(t) <==> OptionShaped(t)
    ensures LooksLikeLegacyFlag(t) <==> BareWordShaped(t)
  {
    assert |t| >= 2 ==> t[..2] == [t[0], t[1]];
    if |t| > 2 {
      NameThenValueIff(t, 3);
      NameThenEndIff(t[3..]);
      assert forall i :: 3 <= i < |t| ==> t[i] == t[3..][i - 3];
    }
  }

  // ------------------------------------------------------------------ every accepted line

  /** A setting in one token, one in two, or a plain word. */
  datatype Item = One(s: Setting) | Two(key: string, value: string) | Word(w: string)

  function Tokens(i: Item): seq<string> {
    match i
    case One(s) => [Printed(s)]
    case Two(k, v) => ["--" + k, v]
    case Word(w) => [w]
  }

  function Line(items: seq<Item>): seq<string> { if items == [] then [] else Tokens(items[0]) + Line(items[1..]) }

  /** A key that can be written before an equals sign, and set. */
  predicate Writable(k: string) { k != "" && '=' !in k && k != "__proto__" }

  /** What follows cannot be taken for a value. */
  predicate NoValueIn(rest: seq<string>) { rest == [] || rest[0] == "--" || OptionShaped(rest[0]) }

  /** The schema takes the item, before those tokens: a string option has its value, and one that may stand bare is not
      followed by what would become its value. */
  predicate Fits(options: Options, i: Item, rest: seq<string>) {
    match i
    case One(Inline(k, _)) => Writable(k) && k in options
    case One(Bare(k)) =>
      Writable(k) && k in options && (options[k].BooleanKind? || (options[k].OptionalKind? && NoValueIn(rest)))
    case Two(k, v) => Writable(k) && k in options && !options[k].BooleanKind? && v != "--" && !OptionShaped(v)
    case Word(w) => !StartsWithDashes(w)
  }

  predicate AllFit(options: Options, items: seq<Item>, tail: seq<string>) {
    items == [] || (Fits(options, items[0], Line(items[1..]) + tail) && AllFit(options, items[1..], tail))
  }

  function WordOf(i: Item): seq<string> { if i.Word? then [i.w] else [] }

  /** The words, in order. */
  function WordsIn(items: seq<Item>): seq<string> { if items == [] then [] else WordOf(items[0]) + WordsIn(items[1..]) }

  /** What an item sets. */
  function FlagsOf(options: Options, i: Item, flags: Flags): Flags {
    match i
    case One(Inline(k, v)) => flags[k := if k in options && options[k].BooleanKind? then On(v != "false") else Text(v)]
    case One(Bare(k)) => flags[k := On(true)]
    case Two(k, v) => flags[k := Text(v)]
    case Word(_) => flags
  }

  /** What each option comes to, the last of a key winning. */
  function FlagsIn(options: Options, items: seq<Item>, flags: Flags): Flags
    decreases |items|
  {
    if items == [] then flags else FlagsIn(options, items[1..], FlagsOf(options, items[0], flags))
  }

  lemma WrittenReads(k: string, v: string)
    requires k != "" && '=' !in k
    ensures var t := "--" + k; Dashed(t) && t != "--" && KeyIn(t) == k && InlineIn(t) == None
    ensures var t := "--" + (k + ("=" + v)); Dashed(t) && t != "--" && KeyIn(t) == k && InlineIn(t) == Some(v)
  {
    var (bare, written) := ("--" + k, "--" + (k + ("=" + v)));
    assert bare[..2] == "--" && written[..2] == "--" && bare[2..] == k && |bare| == |k| + 2;
    assert '=' !in bare;
    IndexOfNone(bare, '=');
    assert written == bare + (['='] + v);
    IndexOfPast(bare, v, '=');
    assert written[2..|bare|] == k && written[|bare| + 1..] == v;
  }

  lemma OneToken(options: Options, s: Setting, rest: seq<string>, st: Scan)
    requires Fits(options, One(s), rest) && !st.after
    ensures Strict([Printed(s)] + rest, options, st)
         == Strict(rest, options, st.(flags := FlagsOf(options, One(s), st.flags)))
  {
    assert ([Printed(s)] + rest)[1..] == rest;
    if rest != [] { OptionShapedIff(rest[0]); }
    WrittenReads(s.key, if s.Inline? then s.value else "");
  }

  lemma TwoTokens(options: Options, k: string, v: string, rest: seq<string>, st: Scan)
    requires Fits(options, Two(k, v), rest) && !st.after
    ensures Strict(["--" + k, v] + rest, options, st) == Strict(rest, options, st.(flags := st.flags[k := Text(v)]))
  {
    var ts := ["--" + k, v] + rest;
    assert ts[1..] == [v] + rest && ts[2..] == rest;
    OptionShapedIff(v);
    WrittenReads(k, v);
  }

  lemma OneItem(options: Options, i: Item, rest: seq<string>, st: Scan)
    requires Fits(options, i, rest) && !st.after
    ensures Strict(Tokens(i) + rest, options, st)
         == Strict(rest, options, st.(flags := FlagsOf(options, i, st.flags), values := st.values + WordOf(i)))
  {
    assert st.values + [] == st.values;
    match i
    case One(s) => OneToken(options, s, rest, st);
    case Two(k, v) => TwoTokens(options, k, v, rest, st);
    case Word(w) => OptionShapedIff(w); assert ([w] + rest)[1..] == rest;
  }

  lemma Associative(a: seq<string>, b: seq<string>, c: seq<string>)
    ensures (a + b) + c == a + (b + c)
  {
  }

  /** Settings in one token or two and plain words, mixed as one likes, are all taken: each option comes to what it
      says, the last of a key wins, and the words come back in order. */
  lemma {:induction false} ItemsParse(options: Options, items: seq<Item>, tail: seq<string>, st: Scan)
    requires AllFit(options, items, tail) && !st.after
    ensures Strict(Line(items) + tail, options, st)
         == Strict(tail, options, st.(flags := FlagsIn(options, items, st.flags), values := st.values + WordsIn(items)))
    decreases |items|
  {
    if items == [] {
      assert Line(items) + tail == tail && st.values + WordsIn(items) == st.values;
    } else {
      var (i, rest) := (items[0], items[1..]);
      var next := st.(flags := FlagsOf(options, i, st.flags), values := st.values + WordOf(i));
      Associative(Tokens(i), Line(rest), tail);
      Associative(st.values, WordOf(i), WordsIn(rest));
      OneItem(options, i, Line(rest) + tail, st);
      ItemsParse(options, rest, tail, next);
    }
  }

  // ------------------------------------------------------------------ every refused line

  /** A positional that must be given: neither optional nor the rest. */
  predicate Needed(name: string) { !(|name| >= 1 && name[0] == '[') && !(|name| >= 3 && name[..3] == "...") }

  /** Too few for the needed ones, or too many with no rest to take them. */
  lemma ArityIff(names: seq<string>, values: seq<string>)
    ensures var needed := |set i | 0 <= i < |names| && Needed(names[i])|;
            var takesRest := names != [] && var last := names[|names| - 1]; |last| >= 3 && last[..3] == "...";
            ArityProblem(names, values)
            == if |values| < needed then Some(MissingArgument(|values|))
               else if !takesRest && |names| < |values| then Some(ExtraArgument(values[|names|])) else None
  {
    RequiredIs(names, 0);
    assert names[0..] == names;
    assert (set i | 0 <= i < |names| && Needed(names[i])) == NeededFrom(names, 0);
  }

  function NeededFrom(names: seq<string>, from: nat): set<nat> { set i: nat | from <= i < |names| && Needed(names[i]) }

  lemma {:induction false} RequiredIs(names: seq<string>, from: nat)
    requires from <= |names|
    ensures Required(names[from..]) == |NeededFrom(names, from)|
    decreases |names| - from
  {
    if from == |names| {
      assert NeededFrom(names, from) == {};
    } else {
      RequiredIs(names, from + 1);
      assert names[from..][1..] == names[from + 1..];
      assert NeededFrom(names, from) == NeededFrom(names, from + 1) + (if Needed(names[from]) then {from} else {});
    }
  }

  /** After what fits, the line is over, or the rest is payload after the terminator, and the count of words decides; or
      it goes on with an option the schema does not take, or one whose value is missing, and is refused for that. */
  lemma LineIsDecided(schema: Schema, items: seq<Item>, tail: seq<string>, positional: seq<string>)
    requires AllFit(OptionsOf(schema), items, tail)
    ensures var (r, options) := (StrictFrom(Line(items) + tail, positional, schema), OptionsOf(schema));
            && (tail == [] || tail[0] == "--" ==>
                  var values := WordsIn(items) + (if tail == [] then [] else tail[1..]);
                  r == match ArityProblem(schema.positionals, values)
                       case Some(e) => Err(e)
                       case None => Ok(Parsed(positional + values, FlagsIn(options, items, map[]))))
            && (tail != [] && tail[0] != "--" && StartsWithDashes(tail[0]) ==>
                  var key := KeyIn(tail[0]);
                  && (key !in options && !IsInherited(key) ==> r == Err(UnknownOption(key)))
                  && (key in options && options[key].StringKind? && InlineIn(tail[0]).None? && NoValueIn(tail[1..]) ==>
                        r == Err(NeedsValue(key))))
  {
    var (options, start) := (OptionsOf(schema), Scan(map[], [], false));
    ItemsParse(options, items, tail, start);
    var mid := start.(flags := FlagsIn(options, items, start.flags), values := start.values + WordsIn(items));
    assert start.values + WordsIn(items) == WordsIn(items);
    if tail == [] {
      assert WordsIn(items) + [] == WordsIn(items);
    } else {
      OptionShapedIff(tail[0]);
      if |tail| > 1 { OptionShapedIff(tail[1]); }
      if tail[0] == "--" { PayloadIsVerbatim(tail[1..], options, mid.(after := true)); }
    }
  }

  // ------------------------------------------------------------------ before the command

  lemma GlobalIsWritable(k: string)
    requires k in GLOBAL_OPTIONS
    ensures Writable(k) && KindOf(GLOBAL_OPTIONS, k).Some?
  {
  }

  lemma LeadingInline(k: string, v: string, rest: seq<string>, flags: Flags)
    requires k in GLOBAL_OPTIONS
    ensures Leading(["--" + (k + ("=" + v))] + rest, flags) == Leading(rest, flags[k := Text(v)])
  {
    GlobalIsWritable(k);
    WrittenReads(k, v);
    assert (["--" + (k + ("=" + v))] + rest)[1..] == rest;
  }

  lemma LeadingTwo(k: string, v: string, rest: seq<string>, flags: Flags)
    requires k in GLOBAL_OPTIONS && v != "--" && !OptionShaped(v)
    ensures Leading(["--" + k, v] + rest, flags) == Leading(rest, flags[k := Text(v)])
  {
    GlobalIsWritable(k);
    WrittenReads(k, v);
    OptionShapedIff(v);
    var two := ["--" + k, v] + rest;
    assert two[1..] == [v] + rest && two[2..] == rest;
  }

  lemma LeadingBare(k: string, rest: seq<string>, flags: Flags)
    requires k in GLOBAL_OPTIONS && NoValueIn(rest)
    ensures Leading(["--" + k] + rest, flags) == Leading(rest, flags[k := On(true)])
  {
    GlobalIsWritable(k);
    WrittenReads(k, "");
    if rest != [] { OptionShapedIff(rest[0]); }
    assert (["--" + k] + rest)[1..] == rest;
  }

  /** Global options may stand before the command in one token or in two, or bare before another option. */
  lemma LeadingIs(s: Setting, v: string, rest: seq<string>, flags: Flags)
    requires s.key in GLOBAL_OPTIONS
    ensures s.Inline? ==> Leading([Printed(s)] + rest, flags) == Leading(rest, flags[s.key := Text(s.value)])
    ensures v != "--" && !OptionShaped(v) ==>
              Leading(["--" + s.key, v] + rest, flags) == Leading(rest, flags[s.key := Text(v)])
    ensures NoValueIn(rest) ==> Leading(["--" + s.key] + rest, flags) == Leading(rest, flags[s.key := On(true)])
    ensures rest == [] || !StartsWithDashes(rest[0]) || rest[0] == "--" ==> Leading(rest, flags) == (rest, flags)
  {
    if s.Inline? { LeadingInline(s.key, s.value, rest, flags); }
    if v != "--" && !OptionShaped(v) { LeadingTwo(s.key, v, rest, flags); }
    if NoValueIn(rest) { LeadingBare(s.key, rest, flags); }
    if rest != [] { OptionShapedIff(rest[0]); }
  }

  /** A command whose schema is not known, or an action that is missing or unknown, is parsed without one. */
  lemma UnknownCommandIsLenient(argv: seq<string>, registry: Registry)
    requires argv != [] && !StartsWithDashes(argv[0]) && !IsInherited(argv[0])
    requires argv[0] in registry ==>
               registry[argv[0]].Grouped?
               && (|argv| == 1 || argv[1] == "" || (argv[1] !in registry[argv[0]].actions && !IsInherited(argv[1])))
    ensures Parse(argv, registry) == Ok(Lenient(argv, Parsed([], map[])))
  {
    OptionShapedIff(argv[0]);
    var none: Flags := map[];
    assert Leading(argv, none) == (argv, none);
  }

  /** So is a line with no command at all. */
  lemma NoCommandIsLenient(argv: seq<string>, registry: Registry)
    requires argv == []
             || (StartsWithDashes(argv[0]) && (argv[0] == "--" || KindOf(GLOBAL_OPTIONS, KeyIn(argv[0])).None?))
    ensures Parse(argv, registry) == Ok(Lenient(argv, Parsed([], map[])))
  {
    if argv != [] { OptionShapedIff(argv[0]); }
    var none: Flags := map[];
    assert Leading(argv, none) == (argv, none);
  }

  /** Without a schema an option takes whatever follows, unless that is shaped like a bare option, and any other word is
      a positional. */
  lemma LenientIs(k: string, v: string, rest: seq<string>, p: Parsed)
    requires Writable(k)
    ensures Lenient(["--" + (k + ("=" + v))] + rest, p) == Lenient(rest, p.(flags := p.flags[k := Text(v)]))
    ensures !BareWordShaped(v) ==> Lenient(["--" + k, v] + rest, p) == Lenient(rest, p.(flags := p.flags[k := Text(v)]))
    ensures rest == [] || BareWordShaped(rest[0]) ==>
              Lenient(["--" + k] + rest, p) == Lenient(rest, p.(flags := p.flags[k := On(true)]))
    ensures !StartsWithDashes(v) ==> Lenient([v] + rest, p) == Lenient(rest, p.(positional := p.positional + [v]))
    ensures Lenient([], p) == p
  {
    WrittenReads(k, v);
    OptionShapedIff(v);
    if rest != [] { OptionShapedIff(rest[0]); }
    var (one, two, bare, word) :=
        (["--" + (k + ("=" + v))] + rest, ["--" + k, v] + rest, ["--" + k] + rest, [v] + rest);
    assert one[1..] == rest && two[1..] == [v] + rest && two[2..] == rest && bare[1..] == rest && word[1..] == rest;
  }

  // ------------------------------------------------------------------ inherited names

  lemma SetterIsInherited()
    ensures IsInherited("__proto__") && "__proto__" != "" && '=' !in "__proto__"
  {
    assert INHERITED[10] == "__proto__";
    AmongAt(INHERITED, 10);
  }

  lemma {:induction false} AmongAt(names: seq<string>, i: nat)
    requires i < |names|
    ensures Among(names, names[i])
  {
    if i > 0 { AmongAt(names[1..], i - 1); }
  }

  /** The one key that is a setter is taken on every schema and in none, and sets nothing. */
  lemma SetterKeySetsNothing(options: Options, v: string, rest: seq<string>, st: Scan, p: Parsed)
    requires "__proto__" !in options && !st.after
    ensures var t := "--" + ("__proto__" + ("=" + v));
            && Strict([t] + rest, options, st) == Strict(rest, options, st)
            && Lenient([t] + rest, p) == Lenient(rest, p)
  {
    SetterIsInherited();
    var t := "--" + ("__proto__" + ("=" + v));
    WrittenReads("__proto__", v);
    assert ([t] + rest)[1..] == rest;
    assert st.(flags := st.flags) == st && p.(flags := p.flags) == p;
  }

  /** An inherited name given for a command, or for an action, is parsed against a schema with nothing in it. */
  lemma InheritedWordIsStrict(argv: seq<string>, registry: Registry)
    requires argv != [] && !StartsWithDashes(argv[0])
    ensures argv[0] !in registry && IsInherited(argv[0]) ==>
              Parse(argv, registry) == StrictFrom(argv[1..], [argv[0]], Schema([], map[]))
    ensures |argv| > 1 && argv[0] in registry && registry[argv[0]].Grouped? && argv[1] != ""
            && argv[1] !in registry[argv[0]].actions && IsInherited(argv[1]) ==>
              Parse(argv, registry) == StrictFrom(argv[2..], [argv[0], argv[1]], Schema([], map[]))
  {
    OptionShapedIff(argv[0]);
    var none: Flags := map[];
    assert Leading(argv, none) == (argv, none);
    assert argv[..1] == [argv[0]];
    if |argv| > 1 { assert argv[..2] == [argv[0], argv[1]]; }
    forall flags: Flags ensures none + flags == flags {}
  }
}
