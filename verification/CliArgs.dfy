/** The argument grammar: a strict parser driven by a schema, and the lenient one it falls back to. */
module CliArgs {
  import opened Wrappers

  datatype Kind = BooleanKind | StringKind | OptionalKind

  type Options = map<string, Kind>

  datatype Schema = Schema(positionals: seq<string>, options: Options)

  datatype Command = Leaf(schema: Schema) | Grouped(actions: map<string, Schema>)

  type Registry = map<string, Command>

  datatype Flag = On(b: bool) | Text(s: string)

  type Flags = map<string, Flag>

  datatype Parsed = Parsed(positional: seq<string>, flags: Flags)

  datatype CliError =
    | UnknownOption(key: string) | NeedsValue(key: string) | MissingArgument(at: nat) | ExtraArgument(value: string)

  const GLOBAL_OPTIONS: Options := map["state" := StringKind, "name" := StringKind]

  // ------------------------------------------------------------------ plain objects

  /** What every plain object answers to without holding it: the names on `Object.prototype`. */
  const INHERITED: seq<string> := [
    "constructor", "__defineGetter__", "__defineSetter__", "hasOwnProperty", "__lookupGetter__", "__lookupSetter__",
    "isPrototypeOf", "propertyIsEnumerable", "toString", "valueOf", "__proto__", "toLocaleString"]

  predicate Among(names: seq<string>, key: string) { names != [] && (names[0] == key || Among(names[1..], key)) }

  predicate IsInherited(key: string) { Among(INHERITED, key) }

  const EMPTY_SCHEMA := Schema([], map[])

  /** `options[key]`: an inherited name yields something that is neither kind, and so reads as optional. */
  function KindOf(options: Options, key: string): Option<Kind> {
    if key in options then Some(options[key]) else if IsInherited(key) then Some(OptionalKind) else None
  }

  /** `flags[key] = value`, which does nothing for the one name that is a setter. */
  function SetFlag(flags: Flags, key: string, value: Flag): Flags {
    if key == "__proto__" then flags else flags[key := value]
  }

  // ------------------------------------------------------------------------- tokens

  function IndexOf(s: string, c: char): (i: int)
    ensures -1 <= i < |s|
    ensures i >= 0 ==> s[i] == c && forall j :: 0 <= j < i ==> s[j] != c
    ensures i == -1 ==> c !in s
  {
    if s == "" then -1
    else if s[0] == c then 0
    else
      var i := IndexOf(s[1..], c);
      if i < 0 then -1 else i + 1
  }

  predicate Dashed(t: string) { |t| >= 2 && t[..2] == "--" }

  predicate IsAlpha(c: char) { 'a' <= c <= 'z' || 'A' <= c <= 'Z' }

  predicate InName(c: char) { IsAlpha(c) || '0' <= c <= '9' || c == '-' }

  predicate NameThenEnd(s: string) { s == "" || (InName(s[0]) && NameThenEnd(s[1..])) }

  predicate NameThenValue(s: string) { s == "" || s[0] == '=' || (InName(s[0]) && NameThenValue(s[1..])) }

  /** The strict parser's notion of an option token. */
  predicate IsLongFlag(t: string) { Dashed(t) && |t| > 2 && IsAlpha(t[2]) && NameThenValue(t[3..]) }

  /** The lenient parser's: a bare word only. */
  predicate LooksLikeLegacyFlag(t: string) { Dashed(t) && |t| > 2 && IsAlpha(t[2]) && NameThenEnd(t[3..]) }

  function KeyIn(t: string): string
    requires Dashed(t)
  {
    var e := IndexOf(t, '=');
    if e < 2 then t[2..] else t[2..e]
  }

  function InlineIn(t: string): Option<string>
    requires Dashed(t)
  {
    var e := IndexOf(t, '=');
    if e < 0 then None else Some(t[e + 1..])
  }

  /** A following token that may be taken for an option's value. */
  function ValueIn(ts: seq<string>): Option<string> {
    if ts == [] || ts[0] == "--" || IsLongFlag(ts[0]) then None else Some(ts[0])
  }

  // ------------------------------------------------------------------- strict parsing

  datatype Scan = Scan(flags: Flags, values: seq<string>, after: bool)

  /** One option token and what follows it: the flag it sets, and how many tokens it took. */
  function OptionStep(kind: Kind, key: string, inlined: Option<string>, rest: seq<string>)
    : Result<(Flag, nat), CliError>
  {
    if kind.BooleanKind? then Ok((On(if inlined.Some? then inlined.value != "false" else true), 1))
    else if inlined.Some? then Ok((Text(inlined.value), 1))
    else if ValueIn(rest).Some? then Ok((Text(ValueIn(rest).value), 2))
    else if kind.StringKind? then Err(NeedsValue(key))
    else Ok((On(true), 1))
  }

  function Strict(ts: seq<string>, options: Options, st: Scan): Result<Scan, CliError>
    decreases |ts|
  {
    if ts == [] then Ok(st)
    else if st.after then Strict(ts[1..], options, st.(values := st.values + [ts[0]]))
    else if ts[0] == "--" then Strict(ts[1..], options, st.(after := true))
    else if !Dashed(ts[0]) then Strict(ts[1..], options, st.(values := st.values + [ts[0]]))
    else
      var kind := KindOf(options, KeyIn(ts[0]));
      if kind.None? then Err(UnknownOption(KeyIn(ts[0])))
      else
        match OptionStep(kind.value, KeyIn(ts[0]), InlineIn(ts[0]), ts[1..])
        case Err(e) => Err(e)
        case Ok((flag, took)) =>
          var st' := st.(flags := SetFlag(st.flags, KeyIn(ts[0]), flag));
          if took == 1 || |ts| == 1 then Strict(ts[1..], options, st') else Strict(ts[2..], options, st')
  }

  predicate IsRest(n: string) { |n| >= 3 && n[..3] == "..." }

  predicate IsRequired(n: string) { !(|n| >= 1 && n[0] == '[') && !IsRest(n) }

  function Required(names: seq<string>): nat {
    if names == [] then 0 else (if IsRequired(names[0]) then 1 else 0) + Required(names[1..])
  }

  predicate Variadic(names: seq<string>) { names != [] && IsRest(names[|names| - 1]) }

  function ArityProblem(names: seq<string>, values: seq<string>): Option<CliError> {
    if |values| < Required(names) then Some(MissingArgument(|values|))
    else if !Variadic(names) && |values| > |names| then Some(ExtraArgument(values[|names|]))
    else None
  }

  function StrictFrom(ts: seq<string>, positional: seq<string>, schema: Schema): Result<Parsed, CliError> {
    match Strict(ts, GLOBAL_OPTIONS + schema.options, Scan(map[], [], false))
    case Err(e) => Err(e)
    case Ok(st) =>
      var problem := ArityProblem(schema.positionals, st.values);
      if problem.Some? then Err(problem.value) else Ok(Parsed(positional + st.values, st.flags))
  }

  /** `parseStrict`: an index over the arguments, flags and values filled as it goes. */
  method ParseStrict(argv: seq<string>, start: nat, positional: seq<string>, schema: Schema)
    returns (r: Result<Parsed, CliError>)
    requires start <= |argv|
    ensures r == StrictFrom(argv[start..], positional, schema)
  {
    var flags: Flags, values: seq<string>, afterTerminator := map[], [], false;
    var options := GLOBAL_OPTIONS + schema.options;
    var i := start;
    while i < |argv|
      invariant start <= i <= |argv|
      invariant Strict(argv[i..], options, Scan(flags, values, afterTerminator))
             == Strict(argv[start..], options, Scan(map[], [], false))
    {
      var token := argv[i];
      assert argv[i..][0] == token && argv[i..][1..] == argv[i + 1..];
      if afterTerminator {
        values := values + [token];
      } else if token == "--" {
        afterTerminator := true;
      } else if !Dashed(token) {
        values := values + [token];
      } else {
        var key, inlineValue := KeyIn(token), InlineIn(token);
        var kind := KindOf(options, key);
        if kind.None? { return Err(UnknownOption(key)); }
        if kind.value.BooleanKind? {
          flags := SetFlag(flags, key, On(if inlineValue.Some? then inlineValue.value != "false" else true));
        } else if inlineValue.Some? {
          flags := SetFlag(flags, key, Text(inlineValue.value));
        } else {
          var value := ValueIn(argv[i + 1..]);
          if value.None? && kind.value.StringKind? { return Err(NeedsValue(key)); }
          flags := SetFlag(flags, key, if value.Some? then Text(value.value) else On(true));
          if value.Some? {
            assert argv[i..][2..] == argv[i + 2..];
            i := i + 1;
          }
        }
      }
      i := i + 1;
    }
    assert argv[i..] == [];
    var problem := ArityProblem(schema.positionals, values);
    r := if problem.Some? then Err(problem.value) else Ok(Parsed(positional + values, flags));
  }

  // ------------------------------------------------------------------ lenient parsing

  function Lenient(ts: seq<string>, p: Parsed): Parsed
    decreases |ts|
  {
    if ts == [] then p
    else if !Dashed(ts[0]) then Lenient(ts[1..], p.(positional := p.positional + [ts[0]]))
    else if InlineIn(ts[0]).Some? then
      Lenient(ts[1..], p.(flags := SetFlag(p.flags, KeyIn(ts[0]), Text(InlineIn(ts[0]).value))))
    else if |ts| == 1 || LooksLikeLegacyFlag(ts[1]) then
      Lenient(ts[1..], p.(flags := SetFlag(p.flags, KeyIn(ts[0]), On(true))))
    else Lenient(ts[2..], p.(flags := SetFlag(p.flags, KeyIn(ts[0]), Text(ts[1]))))
  }

  method ParseLenient(argv: seq<string>) returns (p: Parsed)
    ensures p == Lenient(argv, Parsed([], map[]))
  {
    var positional: seq<string>, flags: Flags := [], map[];
    var i := 0;
    while i < |argv|
      invariant 0 <= i <= |argv|
      invariant Lenient(argv[i..], Parsed(positional, flags)) == Lenient(argv, Parsed([], map[]))
    {
      var token := argv[i];
      assert argv[i..][0] == token && argv[i..][1..] == argv[i + 1..];
      if !Dashed(token) {
        positional := positional + [token];
      } else if InlineIn(token).Some? {
        flags := SetFlag(flags, KeyIn(token), Text(InlineIn(token).value));
      } else if i + 1 == |argv| || LooksLikeLegacyFlag(argv[i + 1]) {
        flags := SetFlag(flags, KeyIn(token), On(true));
      } else {
        flags := SetFlag(flags, KeyIn(token), Text(argv[i + 1]));
        assert argv[i..][2..] == argv[i + 2..];
        i := i + 1;
      }
      i := i + 1;
    }
    assert argv[i..] == [];
    p := Parsed(positional, flags);
  }

  // -------------------------------------------------------------------- whole command

  /** A token that may stand before the command. */
  predicate StartsWithGlobal(t: string) { Dashed(t) && t != "--" && KindOf(GLOBAL_OPTIONS, KeyIn(t)).Some? }

  /** Leading global options, and the tokens from the command on. */
  function Leading(ts: seq<string>, globals: Flags): (seq<string>, Flags)
    decreases |ts|
  {
    if ts == [] || !StartsWithGlobal(ts[0]) then (ts, globals)
    else
      var key := KeyIn(ts[0]);
      if InlineIn(ts[0]).Some? then Leading(ts[1..], SetFlag(globals, key, Text(InlineIn(ts[0]).value)))
      else if ValueIn(ts[1..]).Some? then Leading(ts[2..], SetFlag(globals, key, Text(ValueIn(ts[1..]).value)))
      else Leading(ts[1..], SetFlag(globals, key, On(true)))
  }

  datatype Resolved = Resolved(schema: Schema, actionConsumed: bool)

  /** `schemaFor`; an inherited name finds something with neither actions, nor options, nor positionals. */
  function SchemaFor(command: string, action: Option<string>, registry: Registry): Option<Resolved> {
    if command in registry then
      match registry[command]
      case Leaf(schema) => Some(Resolved(schema, false))
      case Grouped(actions) =>
        if action.None? || action.value == "" then None
        else if action.value in actions then Some(Resolved(actions[action.value], true))
        else if IsInherited(action.value) then Some(Resolved(EMPTY_SCHEMA, true))
        else None
    else if IsInherited(command) then Some(Resolved(EMPTY_SCHEMA, false))
    else None
  }

  function Parse(argv: seq<string>, registry: Registry): Result<Parsed, CliError> {
    var (ts, globals) := Leading(argv, map[]);
    if ts == [] || Dashed(ts[0]) then Ok(Lenient(argv, Parsed([], map[])))
    else
      match SchemaFor(ts[0], if |ts| > 1 then Some(ts[1]) else None, registry)
      case None => Ok(Lenient(argv, Parsed([], map[])))
      case Some(Resolved(schema, consumed)) =>
        var skip := if consumed && |ts| > 1 then 2 else 1;
        match StrictFrom(ts[skip..], ts[..skip], schema)
        case Err(e) => Err(e)
        case Ok(p) => Ok(p.(flags := globals + p.flags))
  }

  /** The leading global options, and where the command stands. */
  method ParseLeading(argv: seq<string>) returns (i: nat, globals: Flags)
    ensures i <= |argv| && (argv[i..], globals) == Leading(argv, map[])
  {
    i, globals := 0, map[];
    while i < |argv| && StartsWithGlobal(argv[i])
      invariant 0 <= i <= |argv|
      invariant Leading(argv[i..], globals) == Leading(argv, map[])
    {
      LeadingUnfolds(argv, i, globals);
      var token := argv[i];
      var key := KeyIn(token);
      if InlineIn(token).Some? {
        globals := SetFlag(globals, key, Text(InlineIn(token).value));
      } else {
        var next := ValueIn(argv[i + 1..]);
        globals := SetFlag(globals, key, if next.Some? then Text(next.value) else On(true));
        if next.Some? { i := i + 1; }
      }
      i := i + 1;
    }
    LeadingEnds(argv, i, globals);
  }

  lemma LeadingEnds(argv: seq<string>, i: nat, globals: Flags)
    requires i <= |argv| && (i < |argv| ==> !StartsWithGlobal(argv[i]))
    ensures Leading(argv[i..], globals) == (argv[i..], globals)
  {
    assert i < |argv| ==> argv[i..][0] == argv[i];
  }

  lemma LeadingUnfolds(argv: seq<string>, i: nat, globals: Flags)
    requires i < |argv| && StartsWithGlobal(argv[i])
    ensures var key := KeyIn(argv[i]);
            Leading(argv[i..], globals) ==
              if InlineIn(argv[i]).Some? then
                Leading(argv[i + 1..], SetFlag(globals, key, Text(InlineIn(argv[i]).value)))
              else if ValueIn(argv[i + 1..]).Some?
              then Leading(argv[i + 2..], SetFlag(globals, key, Text(ValueIn(argv[i + 1..]).value)))
              else Leading(argv[i + 1..], SetFlag(globals, key, On(true)))
  {
    assert argv[i..][0] == argv[i] && argv[i..][1..] == argv[i + 1..];
    if |argv| > i + 1 { assert argv[i..][2..] == argv[i + 2..]; }
  }

  /** `parseArgs`. */
  method ParseArgs(argv: seq<string>, registry: Registry) returns (r: Result<Parsed, CliError>)
    ensures r == Parse(argv, registry)
  {
    var i, globals := ParseLeading(argv);
    ghost var ts := argv[i..];
    if i == |argv| || Dashed(argv[i]) {
      var p := ParseLenient(argv);
      return Ok(p);
    }
    assert ts[0] == argv[i] && (|ts| > 1 ==> ts[1] == argv[i + 1]);
    var resolved := SchemaFor(argv[i], if i + 1 < |argv| then Some(argv[i + 1]) else None, registry);
    if resolved.None? {
      var p := ParseLenient(argv);
      return Ok(p);
    }
    var words := if resolved.value.actionConsumed then 2 else 1;
    SliceTwice(argv, i, words);
    var parsed := ParseStrict(argv, i + words, argv[i..i + words], resolved.value.schema);
    r := match parsed case Err(e) => Err(e) case Ok(p) => Ok(p.(flags := globals + p.flags));
  }

  lemma SliceTwice(argv: seq<string>, i: nat, n: nat)
    requires i + n <= |argv|
    ensures argv[i..][n..] == argv[i + n..] && argv[i..][..n] == argv[i..i + n]
  {
  }
}
