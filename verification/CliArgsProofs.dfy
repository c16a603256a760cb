/** Printing arguments and strictly parsing them undo each other; what an unknown option is. */
module CliArgsProofs {
  import opened Wrappers
  import opened CliArgs

  // ------------------------------------------------------------------------ printing

  /** An option written with its value in the same token, or bare. */
  datatype Setting = Inline(key: string, value: string) | Bare(key: string)

  function Printed(s: Setting): string {
    match s
    case Inline(k, v) => "--" + (k + ("=" + v))
    case Bare(k) => "--" + k
  }

  function PrintedAll(ss: seq<Setting>): seq<string> {
    if ss == [] then [] else [Printed(ss[0])] + PrintedAll(ss[1..])
  }

  /** Options, then the terminator, then the positionals. */
  function Print(ss: seq<Setting>, values: seq<string>): seq<string> { PrintedAll(ss) + (["--"] + values) }

  predicate AllInName(s: string) { forall i :: 0 <= i < |s| ==> InName(s[i]) }

  predicate WellNamed(k: string) { k != "" && IsAlpha(k[0]) && AllInName(k[1..]) }

  /** The schema declares the option, and lets it stand bare if it does. */
  predicate Declared(options: Options, s: Setting) {
    WellNamed(s.key) && s.key in options && (s.Bare? ==> !options[s.key].StringKind?)
  }

  predicate AllDeclared(options: Options, ss: seq<Setting>) { forall i :: 0 <= i < |ss| ==> Declared(options, ss[i]) }

  /** What a setting means. */
  function Meaning(options: Options, s: Setting): Flag
    requires s.key in options
  {
    match s
    case Bare(_) => On(true)
    case Inline(k, v) => if options[k].BooleanKind? then On(v != "false") else Text(v)
  }

  function Applied(options: Options, ss: seq<Setting>, flags: Flags): Flags
    requires AllDeclared(options, ss)
    decreases |ss|
  {
    if ss == [] then flags else Applied(options, ss[1..], flags[ss[0].key := Meaning(options, ss[0])])
  }

  // ------------------------------------------------------------------- reading a token

  lemma {:induction false} IndexOfPast(s: string, rest: string, c: char)
    requires c !in s
    ensures IndexOf(s + ([c] + rest), c) == |s|
  {
    if s == "" {
      assert s + ([c] + rest) == [c] + rest;
    } else {
      assert (s + ([c] + rest))[1..] == s[1..] + ([c] + rest);
      IndexOfPast(s[1..], rest, c);
    }
  }

  lemma {:induction false} IndexOfNone(s: string, c: char)
    requires c !in s
    ensures IndexOf(s, c) == -1
  {
  }

  lemma NamesHaveNoEquals(k: string)
    requires WellNamed(k)
    ensures '=' !in k && k != "__proto__" && '=' !in "--" + k
  {
    assert k == [k[0]] + k[1..];
  }

  lemma InlineReads(k: string, v: string)
    requires WellNamed(k)
    ensures var t := Printed(Inline(k, v)); Dashed(t) && t != "--" && KeyIn(t) == k && InlineIn(t) == Some(v)
  {
    NamesHaveNoEquals(k);
    var t := Printed(Inline(k, v));
    assert t == ("--" + k) + (['='] + v);
    IndexOfPast("--" + k, v, '=');
    assert t[2..|k| + 2] == k && t[|k| + 3..] == v;
  }

  lemma BareReads(k: string)
    requires WellNamed(k)
    ensures var t := Printed(Bare(k)); Dashed(t) && t != "--" && KeyIn(t) == k && InlineIn(t) == None
  {
    NamesHaveNoEquals(k);
    IndexOfNone("--" + k, '=');
    assert ("--" + k)[2..] == k;
  }

  lemma {:induction false} NameThenAnything(s: string, rest: string)
    requires AllInName(s) && (rest == "" || rest[0] == '=')
    ensures NameThenValue(s + rest)
  {
    if s == "" {
      assert s + rest == rest;
    } else {
      assert (s + rest)[1..] == s[1..] + rest;
      NameThenAnything(s[1..], rest);
    }
  }

  lemma DashedSplits(k: string, rest: string)
    requires k != ""
    ensures var t := "--" + (k + rest); |t| > 2 && t[..2] == "--" && t[2] == k[0] && t[3..] == k[1..] + rest
  {
  }

  /** A printed setting reads as an option to whoever looks ahead at it. */
  lemma PrintedIsLongFlag(s: Setting)
    requires WellNamed(s.key)
    ensures IsLongFlag(Printed(s))
  {
    var rest := if s.Inline? then "=" + s.value else "";
    assert s.key + "" == s.key;
    DashedSplits(s.key, rest);
    NameThenAnything(s.key[1..], rest);
  }

  // ---------------------------------------------------------------------- round trip

  lemma {:induction false} PayloadIsVerbatim(ts: seq<string>, options: Options, st: Scan)
    requires st.after
    ensures Strict(ts, options, st) == Ok(st.(values := st.values + ts))
    decreases |ts|
  {
    if ts == [] {
      assert st.values + ts == st.values;
    } else {
      PayloadIsVerbatim(ts[1..], options, st.(values := st.values + [ts[0]]));
      assert (st.values + [ts[0]]) + ts[1..] == st.values + ts;
    }
  }

  lemma OneSetting(options: Options, s: Setting, line: seq<string>, st: Scan)
    requires Declared(options, s) && !st.after && line != [] && line[0] == Printed(s) && ValueIn(line[1..]).None?
    ensures Strict(line, options, st)
            == Strict(line[1..], options, st.(flags := st.flags[s.key := Meaning(options, s)]))
  {
    NamesHaveNoEquals(s.key);
    if s.Inline? { InlineReads(s.key, s.value); } else { BareReads(s.key); }
  }

  lemma FirstPrinted(options: Options, ss: seq<Setting>, tail: seq<string>)
    requires ss != [] && AllDeclared(options, ss) && ValueIn(tail).None?
    ensures Declared(options, ss[0]) && AllDeclared(options, ss[1..])
    ensures var line := PrintedAll(ss) + tail;
            line != [] && line[0] == Printed(ss[0]) && line[1..] == PrintedAll(ss[1..]) + tail
              && ValueIn(line[1..]).None?
  {
    TailIsDeclared(options, ss);
    if |ss| > 1 { assert Declared(options, ss[1..][0]); }
    SettingIsNoValue(ss[1..], tail);
    ConsThenTail(Printed(ss[0]), PrintedAll(ss[1..]), tail);
  }

  lemma TailIsDeclared(options: Options, ss: seq<Setting>)
    requires ss != [] && AllDeclared(options, ss)
    ensures Declared(options, ss[0]) && AllDeclared(options, ss[1..])
  {
    forall i | 0 <= i < |ss[1..]| ensures Declared(options, ss[1..][i]) { assert ss[1..][i] == ss[i + 1]; }
  }

  lemma ConsThenTail(x: string, xs: seq<string>, tail: seq<string>)
    ensures var line := ([x] + xs) + tail; line != [] && line[0] == x && line[1..] == xs + tail
  {
  }

  lemma SettingIsNoValue(ss: seq<Setting>, tail: seq<string>)
    requires (ss != [] ==> WellNamed(ss[0].key)) && ValueIn(tail).None?
    ensures ValueIn(PrintedAll(ss) + tail).None?
  {
    if ss == [] {
      assert PrintedAll(ss) + tail == tail;
    } else {
      PrintedIsLongFlag(ss[0]);
      ConsThenTail(Printed(ss[0]), PrintedAll(ss[1..]), tail);
    }
  }

  lemma {:induction false} SettingsParse(options: Options, ss: seq<Setting>, tail: seq<string>, st: Scan)
    requires AllDeclared(options, ss) && !st.after && ValueIn(tail).None?
    ensures Strict(PrintedAll(ss) + tail, options, st)
            == Strict(tail, options, st.(flags := Applied(options, ss, st.flags)))
    decreases |ss|
  {
    if ss == [] {
      assert PrintedAll(ss) + tail == tail;
    } else {
      FirstPrinted(options, ss, tail);
      OneSetting(options, ss[0], PrintedAll(ss) + tail, st);
      SettingsParse(options, ss[1..], tail, st.(flags := st.flags[ss[0].key := Meaning(options, ss[0])]));
    }
  }

  /** A schema's own options and the global ones. */
  function OptionsOf(schema: Schema): Options { GLOBAL_OPTIONS + schema.options }

  /** Strictly parsing printed settings and positionals gives exactly those flags, and the positionals verbatim, exactly
      when their number fits the schema. */
  lemma PrintThenStrict(schema: Schema, ss: seq<Setting>, values: seq<string>, positional: seq<string>)
    requires AllDeclared(OptionsOf(schema), ss)
    ensures StrictFrom(Print(ss, values), positional, schema) ==
              var problem := ArityProblem(schema.positionals, values);
              if problem.Some? then Err(problem.value)
              else Ok(Parsed(positional + values, Applied(OptionsOf(schema), ss, map[])))
  {
    var options := OptionsOf(schema);
    var start := Scan(map[], [], false);
    var tail := ["--"] + values;
    SettingsParse(options, ss, tail, start);
    var mid := start.(flags := Applied(options, ss, map[]));
    assert tail[1..] == values;
    PayloadIsVerbatim(values, options, mid.(after := true));
    assert mid.values + values == values;
  }

  /** How a command is written: its word, and its action's when it has actions. */
  predicate Words(words: seq<string>, registry: Registry, schema: Schema) {
    || (|words| == 1 && words[0] in registry && registry[words[0]] == Leaf(schema))
    || (|words| == 2 && words[0] in registry && registry[words[0]].Grouped? && words[1] != ""
        && words[1] in registry[words[0]].actions && registry[words[0]].actions[words[1]] == schema)
  }

  /** The whole parser on a printed command line: the command, its action, the positionals verbatim, exactly those
      flags. */
  lemma PrintThenParse(registry: Registry, words: seq<string>, schema: Schema, ss: seq<Setting>, values: seq<string>)
    requires Words(words, registry, schema) && !Dashed(words[0])
    requires AllDeclared(OptionsOf(schema), ss) && ArityProblem(schema.positionals, values).None?
    ensures Parse(words + Print(ss, values), registry)
         == Ok(Parsed(words + values, Applied(OptionsOf(schema), ss, map[])))
  {
    var argv := words + Print(ss, values);
    var none: Flags := map[];
    assert argv[0] == words[0];
    assert Leading(argv, none) == (argv, none);
    if |words| == 2 { assert argv[1] == words[1]; }
    assert argv[|words|..] == Print(ss, values) && argv[..|words|] == words;
    PrintThenStrict(schema, ss, values, words);
    assert none + Applied(OptionsOf(schema), ss, none) == Applied(OptionsOf(schema), ss, none);
  }

  // ------------------------------------------------------------------- leading globals

  predicate GlobalInline(s: Setting) { s.Inline? && s.key in GLOBAL_OPTIONS }

  predicate AllGlobal(ss: seq<Setting>) { forall i :: 0 <= i < |ss| ==> GlobalInline(ss[i]) }

  function Globals(ss: seq<Setting>, flags: Flags): Flags
    requires AllGlobal(ss)
    decreases |ss|
  {
    if ss == [] then flags
    else
      assert GlobalInline(ss[0]);
      Globals(ss[1..], flags[ss[0].key := Text(ss[0].value)])
  }

  lemma {:induction false} LeadingGlobals(ss: seq<Setting>, tail: seq<string>, flags: Flags)
    requires AllGlobal(ss)
    requires tail != [] && !Dashed(tail[0])
    ensures Leading(PrintedAll(ss) + tail, flags) == (tail, Globals(ss, flags))
    decreases |ss|
  {
    if ss == [] {
      assert PrintedAll(ss) + tail == tail;
    } else {
      var s := ss[0];
      assert WellNamed(s.key);
      InlineReads(s.key, s.value);
      NamesHaveNoEquals(s.key);
      assert PrintedAll(ss) + tail == [Printed(s)] + (PrintedAll(ss[1..]) + tail);
      LeadingGlobals(ss[1..], tail, flags[s.key := Text(s.value)]);
    }
  }

  /** Globals may also stand before the command; one repeated after it wins. */
  lemma GlobalsThenCommand(registry: Registry, globals: seq<Setting>, words: seq<string>, schema: Schema,
                           ss: seq<Setting>, values: seq<string>)
    requires AllGlobal(globals)
    requires Words(words, registry, schema) && !Dashed(words[0])
    requires AllDeclared(OptionsOf(schema), ss) && ArityProblem(schema.positionals, values).None?
    ensures Parse(PrintedAll(globals) + (words + Print(ss, values)), registry)
         == Ok(Parsed(words + values, Globals(globals, map[]) + Applied(OptionsOf(schema), ss, map[])))
  {
    var line := words + Print(ss, values);
    assert line[0] == words[0];
    LeadingGlobals(globals, line, map[]);
    if |words| == 2 { assert line[1] == words[1]; }
    assert line[|words|..] == Print(ss, values) && line[..|words|] == words;
    PrintThenStrict(schema, ss, values, words);
  }

  // ------------------------------------------------------------------- the two-token form

  /** `--k v` is `--k=v` for an option that takes a value, whenever v is neither the terminator nor shaped like an
      option. */
  lemma TwoTokensAreOne(options: Options, k: string, v: string, rest: seq<string>, st: Scan)
    requires WellNamed(k) && k in options && !options[k].BooleanKind? && !st.after
    requires v != "--" && !IsLongFlag(v)
    ensures Strict(["--" + k, v] + rest, options, st) == Strict(["--" + (k + ("=" + v))] + rest, options, st)
  {
    BareReads(k);
    InlineReads(k, v);
    var two, one := ["--" + k, v] + rest, ["--" + (k + ("=" + v))] + rest;
    assert two[1..] == [v] + rest && two[2..] == rest && one[1..] == rest;
    assert ValueIn(two[1..]) == Some(v);
  }

  /** When v is one of those, a string option refuses and an optional one stands bare. */
  lemma OtherwiseNoValue(options: Options, k: string, v: string, rest: seq<string>, st: Scan)
    requires WellNamed(k) && k in options && !options[k].BooleanKind? && !st.after
    requires v == "--" || IsLongFlag(v)
    ensures options[k].StringKind? ==> Strict(["--" + k, v] + rest, options, st) == Err(NeedsValue(k))
    ensures options[k].OptionalKind? ==>
              Strict(["--" + k, v] + rest, options, st)
                == Strict([v] + rest, options, st.(flags := st.flags[k := On(true)]))
  {
    BareReads(k);
    NamesHaveNoEquals(k);
    var two := ["--" + k, v] + rest;
    assert two[1..] == [v] + rest;
    assert ValueIn(two[1..]).None?;
  }

  // ------------------------------------------------------------------ unknown options

  lemma {:induction false} KnownIsNeverRefused(ts: seq<string>, options: Options, st: Scan, key: string)
    requires KindOf(options, key).Some?
    ensures Strict(ts, options, st) != Err(UnknownOption(key))
    decreases |ts|
  {
    if ts != [] {
      if st.after || ts[0] == "--" || !Dashed(ts[0]) {
        KnownIsNeverRefused(ts[1..], options, st.(values := st.values + [ts[0]]), key);
        KnownIsNeverRefused(ts[1..], options, st.(after := true), key);
      } else if KindOf(options, KeyIn(ts[0])).Some? {
        var step := OptionStep(KindOf(options, KeyIn(ts[0])).value, KeyIn(ts[0]), InlineIn(ts[0]), ts[1..]);
        if step.Ok? {
          var st' := st.(flags := SetFlag(st.flags, KeyIn(ts[0]), step.value.0));
          KnownIsNeverRefused(ts[1..], options, st', key);
          if |ts| > 1 { KnownIsNeverRefused(ts[2..], options, st', key); }
        }
      }
    }
  }

  /** A line that opens with an option is refused for that option exactly when the schema does not declare it and it is
      not a name every object answers to. */
  lemma UnknownIff(schema: Schema, s: Setting, rest: seq<string>, positional: seq<string>)
    requires WellNamed(s.key)
    ensures StrictFrom([Printed(s)] + rest, positional, schema) == Err(UnknownOption(s.key))
       <==> s.key !in OptionsOf(schema) && !IsInherited(s.key)
  {
    if s.Inline? { InlineReads(s.key, s.value); } else { BareReads(s.key); }
    assert ([Printed(s)] + rest)[1..] == rest;
    if KindOf(OptionsOf(schema), s.key).Some? {
      KnownIsNeverRefused([Printed(s)] + rest, OptionsOf(schema), Scan(map[], [], false), s.key);
    }
  }

  /** So an undeclared option is not always refused: these names pass on any schema that does not declare them. */
  lemma UndeclaredYetAccepted(schema: Schema, key: string, value: string, positional: seq<string>)
    requires WellNamed(key) && IsInherited(key) && key !in OptionsOf(schema) && Required(schema.positionals) == 0
    ensures StrictFrom([Printed(Inline(key, value))], positional, schema)
            == Ok(Parsed(positional, map[key := Text(value)]))
  {
    InlineReads(key, value);
    NamesHaveNoEquals(key);
    var ts := [Printed(Inline(key, value))];
    var start, flags := Scan(map[], [], false), map[key := Text(value)];
    assert ts[1..] == [];
    var done := start.(flags := start.flags[key := Text(value)]);
    assert Strict(ts, OptionsOf(schema), start) == Strict([], OptionsOf(schema), done);
    assert start.flags[key := Text(value)] == flags;
    assert positional + start.values == positional;
  }

  /** Such a name exists. */
  lemma ConstructorIsOne()
    ensures WellNamed("constructor") && IsInherited("constructor") && "constructor" !in GLOBAL_OPTIONS
  {
    assert "constructor"[1..] == "onstructor";
  }

  // ---------------------------------------------------------------- the lenient fallback

  function InlineFlags(ss: seq<Setting>, flags: Flags): Flags
    decreases |ss|
  {
    if ss == [] then flags
    else InlineFlags(ss[1..], if ss[0].Inline? then flags[ss[0].key := Text(ss[0].value)] else flags)
  }

  predicate AllInline(ss: seq<Setting>) { forall i :: 0 <= i < |ss| ==> ss[i].Inline? && WellNamed(ss[i].key) }

  lemma {:induction false} LenientValues(values: seq<string>, p: Parsed)
    requires forall i :: 0 <= i < |values| ==> !Dashed(values[i])
    ensures Lenient(values, p) == p.(positional := p.positional + values)
    decreases |values|
  {
    if values == [] {
      assert p.positional + values == p.positional;
    } else {
      LenientValues(values[1..], p.(positional := p.positional + [values[0]]));
      assert (p.positional + [values[0]]) + values[1..] == p.positional + values;
    }
  }

  /** Without a schema, options written with their values and plain positionals still come back as given, untyped. */
  lemma {:induction false} LenientRoundTrip(ss: seq<Setting>, values: seq<string>, p: Parsed)
    requires AllInline(ss) && forall i :: 0 <= i < |values| ==> !Dashed(values[i])
    ensures Lenient(PrintedAll(ss) + values, p) == Parsed(p.positional + values, InlineFlags(ss, p.flags))
    decreases |ss|
  {
    if ss == [] {
      assert PrintedAll(ss) + values == values;
      LenientValues(values, p);
    } else {
      assert ss[0].Inline? && WellNamed(ss[0].key);
      forall i | 0 <= i < |ss[1..]| ensures ss[1..][i].Inline? && WellNamed(ss[1..][i].key) {
        assert ss[1..][i] == ss[i + 1];
      }
      InlineReads(ss[0].key, ss[0].value);
      NamesHaveNoEquals(ss[0].key);
      ConsThenTail(Printed(ss[0]), PrintedAll(ss[1..]), values);
      LenientRoundTrip(ss[1..], values, p.(flags := p.flags[ss[0].key := Text(ss[0].value)]));
    }
  }
}
