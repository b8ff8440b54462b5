/**
 * The command-line parser: raw arguments bound to a command's definition, and the lenient
 * twin that only asks which required arguments are still missing.
 */
module Signature {
  import opened Options

  datatype Argument = Argument(name: string, required: bool, isArray: bool, fallback: Option<string>)

  /** What an option or argument holds; `Undefined` is a default that was not given. */
  datatype Value = Undefined | Flag(on: bool) | Text(text: string) | List(items: seq<string>)

  datatype Switch = Switch(name: string, shortcut: Option<string>, acceptsValue: bool, isArray: bool, fallback: Value)

  datatype Definition = Definition(arguments: seq<Argument>, options: seq<Switch>)

  datatype Error =
    | UnknownOption(key: string)
    | UnknownShortcut(letter: char)
    | NeedsValue(name: string)
    | MissingArgument(name: string)

  datatype Result<T> = Ok(value: T) | Err(error: Error)

  type Values = map<string, Value>

  // ------------------------------------------------------------------ tokens

  predicate Dashed(token: string) {
    token != "" && token[0] == '-'
  }

  predicate Long(token: string) {
    |token| >= 2 && token[0] == '-' && token[1] == '-'
  }

  /** The text before the first `mark`, and the text after it when there is one. */
  function Cut(s: string, mark: char): (string, Option<string>) {
    if s == "" then ("", None)
    else if s[0] == mark then ("", Some(s[1..]))
    else
      var rest := Cut(s[1..], mark);
      ([s[0]] + rest.0, rest.1)
  }

  function Head(argv: seq<string>): Option<string> {
    if argv == [] then None else Some(argv[0])
  }

  function Named(options: seq<Switch>, key: string): Option<Switch> {
    if options == [] then None else if options[0].name == key then Some(options[0]) else Named(options[1..], key)
  }

  function Lettered(options: seq<Switch>, letter: char): Option<Switch> {
    if options == [] then None
    else if options[0].shortcut == Some([letter]) then Some(options[0])
    else Lettered(options[1..], letter)
  }

  // ------------------------------------------------------------------ options

  function Initial(o: Switch): Value {
    if o.isArray then List([]) else o.fallback
  }

  function Defaults(options: seq<Switch>): Values {
    if options == [] then map[]
    else
      var last := options[|options| - 1];
      Defaults(options[..|options| - 1])[last.name := Initial(last)]
  }

  function Stored(opts: Values, o: Switch, value: string): Values {
    if !o.isArray then opts[o.name := Text(value)]
    else
      var current := if o.name in opts && opts[o.name].List? then opts[o.name].items else [];
      opts[o.name := List(current + [value])]
  }

  /** The options after one was given, and how many further tokens it took: one when its value came from there. */
  function Apply(opts: Values, o: Switch, inlined: Option<string>, next: Option<string>): (r: Result<(Values, nat)>)
    ensures r.Ok? ==>
              r.value.1 == 0 || (r.value.1 == 1 && next.Some? && !Dashed(next.value) && o.acceptsValue && inlined.None?)
  {
    if !o.acceptsValue then Ok((opts[o.name := Flag(true)], 0))
    else if inlined.Some? then Ok((Stored(opts, o, inlined.value), 0))
    else if next.None? || Dashed(next.value) then Err(NeedsValue(o.name))
    else Ok((Stored(opts, o, next.value), 1))
  }

  /** A run of short options; each one that wants a value takes the next token. */
  function Cluster(options: seq<Switch>, letters: string, rest: seq<string>,
                   opts: Values): (r: Result<(Values, seq<string>)>)
    ensures r.Ok? ==> |r.value.1| <= |rest|
  {
    if letters == "" then Ok((opts, rest))
    else
      var o := Lettered(options, letters[0]);
      if o.None? then Err(UnknownShortcut(letters[0]))
      else
        var applied := Apply(opts, o.value, None, Head(rest));
        if applied.Err? then Err(applied.error)
        else Cluster(options, letters[1..], rest[applied.value.1..], applied.value.0)
  }

  // ------------------------------------------------------------------ one pass over the tokens

  datatype Scanned = Scanned(opts: Values, positional: seq<string>)

  function Scan(options: seq<Switch>, argv: seq<string>, opts: Values, positional: seq<string>,
                literal: bool): Result<Scanned>
    decreases |argv|, 1
  {
    if argv == [] then Ok(Scanned(opts, positional))
    else ScanFirst(options, argv[0], argv[1..], opts, positional, literal)
  }

  function ScanFirst(options: seq<Switch>, token: string, rest: seq<string>, opts: Values, positional: seq<string>,
                     literal: bool):
    Result<Scanned>
    decreases |rest| + 1, 0
  {
    if literal then Scan(options, rest, opts, positional + [token], true)
    else if token == "--" then Scan(options, rest, opts, positional, true)
    else if Long(token) then
      var cut := Cut(token[2..], '=');
      var o := Named(options, cut.0);
      if o.None? then Err(UnknownOption(cut.0))
      else
        var applied := Apply(opts, o.value, cut.1, Head(rest));
        if applied.Err? then Err(applied.error)
        else Scan(options, rest[applied.value.1..], applied.value.0, positional, false)
    else if Dashed(token) && |token| > 1 then
      var applied := Cluster(options, token[1..], rest, opts);
      if applied.Err? then Err(applied.error)
      else Scan(options, applied.value.1, applied.value.0, positional, false)
    else Scan(options, rest, opts, positional + [token], false)
  }

  // ------------------------------------------------------------------ binding the arguments

  function DefaultOf(a: Argument): Value {
    if a.fallback.Some? then Text(a.fallback.value) else Undefined
  }

  function Bind(arguments: seq<Argument>, positional: seq<string>, cursor: nat, args: Values): Result<Values> {
    if arguments == [] then Ok(args)
    else
      var a := arguments[0];
      if a.isArray then
        var rest := if cursor <= |positional| then positional[cursor..] else [];
        if rest == [] && a.required then Err(MissingArgument(a.name))
        else Bind(arguments[1..], positional, |positional|, args[a.name := List(rest)])
      else if cursor < |positional| then
        Bind(arguments[1..], positional, cursor + 1, args[a.name := Text(positional[cursor])])
      else if a.required then Err(MissingArgument(a.name))
      else Bind(arguments[1..], positional, cursor + 1, args[a.name := DefaultOf(a)])
  }

  datatype Parsed = Parsed(args: Values, opts: Values)

  function Parse(d: Definition, argv: seq<string>): Result<Parsed> {
    var scanned := Scan(d.options, argv, Defaults(d.options), [], false);
    if scanned.Err? then Err(scanned.error)
    else
      var bound := Bind(d.arguments, scanned.value.positional, 0, map[]);
      if bound.Err? then Err(bound.error) else Ok(Parsed(bound.value, scanned.value.opts))
  }

  /** Bind raw arguments, already stripped of the command's name, to a definition. */
  method ParseInput(argv: seq<string>, d: Definition) returns (result: Result<Parsed>)
    ensures result == Parse(d, argv)
  {
    var opts: Values := map[];
    for n := 0 to |d.options|
      invariant opts == Defaults(d.options[..n])
    {
      assert d.options[..n + 1][..n] == d.options[..n];
      opts := opts[d.options[n].name := if d.options[n].isArray then List([]) else d.options[n].fallback];
    }
    assert d.options[..|d.options|] == d.options;
    var scanned := ReadTokens(argv, d.options, opts);
    if scanned.Err? {
      return Err(scanned.error);
    }
    var bound := BindArguments(d.arguments, scanned.value.positional);
    if bound.Err? {
      return Err(bound.error);
    }
    result := Ok(Parsed(bound.value, scanned.value.opts));
  }

  /** The loop over the tokens: `index` never passes the end, and every token is read once. */
  method ReadTokens(argv: seq<string>, options: seq<Switch>, opts0: Values) returns (result: Result<Scanned>)
    ensures result == Scan(options, argv, opts0, [], false)
  {
    var opts := opts0;
    var positional: seq<string> := [];
    var onlyPositional := false;
    var index := 0;
    while index < |argv|
      invariant 0 <= index <= |argv|
      invariant Scan(options, argv, opts0, [], false) == Scan(options, argv[index..], opts, positional, onlyPositional)
    {
      var token := argv[index];
      index := index + 1;
      assert argv[index - 1..][0] == token && argv[index - 1..][1..] == argv[index..];
      if onlyPositional {
        positional := positional + [token];
      } else if token == "--" {
        onlyPositional := true;
      } else if Long(token) {
        var cut := Cut(token[2..], '=');
        var o := Named(options, cut.0);
        if o.None? {
          return Err(UnknownOption(cut.0));
        }
        var applied := ApplyOption(opts, o.value, cut.1, if index < |argv| then Some(argv[index]) else None);
        if applied.Err? {
          return Err(applied.error);
        }
        assert argv[index..][applied.value.1..] == argv[index + applied.value.1..];
        opts, index := applied.value.0, index + applied.value.1;
      } else if Dashed(token) && |token| > 1 {
        var clustered := ReadLetters(argv, options, token[1..], index, opts);
        if clustered.Err? {
          return Err(clustered.error);
        }
        opts, index := clustered.value.0, clustered.value.1;
      } else {
        positional := positional + [token];
      }
    }
    result := Ok(Scanned(opts, positional));
  }

  method ReadLetters(argv: seq<string>, options: seq<Switch>, letters: string, start: nat, opts0: Values)
    returns (result: Result<(Values, nat)>)
    requires start <= |argv|
    ensures result.Err? ==> Cluster(options, letters, argv[start..], opts0) == Err(result.error)
    ensures result.Ok? ==> start <= result.value.1 <= |argv|
                           && Cluster(options, letters, argv[start..], opts0)
                              == Ok((result.value.0, argv[result.value.1..]))
  {
    var opts, index := opts0, start;
    for k := 0 to |letters|
      invariant start <= index <= |argv|
      invariant Cluster(options, letters, argv[start..], opts0) == Cluster(options, letters[k..], argv[index..], opts)
    {
      assert letters[k..][0] == letters[k] && letters[k..][1..] == letters[k + 1..];
      var o := Lettered(options, letters[k]);
      if o.None? {
        return Err(UnknownShortcut(letters[k]));
      }
      var applied := ApplyOption(opts, o.value, None, if index < |argv| then Some(argv[index]) else None);
      if applied.Err? {
        return Err(applied.error);
      }
      assert argv[index..][applied.value.1..] == argv[index + applied.value.1..];
      opts, index := applied.value.0, index + applied.value.1;
    }
    result := Ok((opts, index));
  }

  method BindArguments(arguments: seq<Argument>, positional: seq<string>) returns (result: Result<Values>)
    ensures result == Bind(arguments, positional, 0, map[])
  {
    var args: Values := map[];
    var cursor := 0;
    for n := 0 to |arguments|
      invariant 0 <= cursor
      invariant Bind(arguments, positional, 0, map[]) == Bind(arguments[n..], positional, cursor, args)
    {
      var a := arguments[n];
      assert arguments[n..][0] == a && arguments[n..][1..] == arguments[n + 1..];
      if a.isArray {
        var rest := if cursor <= |positional| then positional[cursor..] else [];
        cursor := |positional|;
        if rest == [] && a.required {
          return Err(MissingArgument(a.name));
        }
        args := args[a.name := List(rest)];
      } else {
        var value := if cursor < |positional| then Some(positional[cursor]) else None;
        cursor := cursor + 1;
        if value.Some? {
          args := args[a.name := Text(value.value)];
        } else if a.required {
          return Err(MissingArgument(a.name));
        } else {
          args := args[a.name := DefaultOf(a)];
        }
      }
    }
    result := Ok(args);
  }

  /** One option and its value; the second part says how many tokens beyond it were used. */
  method ApplyOption(opts: Values, o: Switch, inlined: Option<string>,
                     next: Option<string>) returns (r: Result<(Values, nat)>)
    ensures r == Apply(opts, o, inlined, next)
  {
    if !o.acceptsValue {
      return Ok((opts[o.name := Flag(true)], 0));
    }
    var value, consumed := inlined, 0;
    if value.None? {
      if next.None? || Dashed(next.value) {
        return Err(NeedsValue(o.name));
      }
      value, consumed := next, 1;
    }
    if o.isArray {
      var current := if o.name in opts && opts[o.name].List? then opts[o.name].items else [];
      return Ok((opts[o.name := List(current + [value.value])], consumed));
    }
    r := Ok((opts[o.name := Text(value.value)], consumed));
  }
}
