/**
 * What the parser promises: every token is read exactly once, a canonical command line
 * parses back to its input, and the lenient parser asks for just what the strict one misses.
 */
module SignatureProofs {
  import opened Options
  import opened Signature

  // ------------------------------------------------------------------ every token has one role

  datatype Role = Separator | OptionToken | OptionValue | Positional

  /** How many values a run of letters takes. */
  function Wanting(options: seq<Switch>, letters: string): nat {
    if letters == "" then 0
    else
      var o := Lettered(options, letters[0]);
      (if o.Some? && o.value.acceptsValue then 1 else 0) + Wanting(options, letters[1..])
  }

  function TakenBy(options: seq<Switch>, token: string): nat {
    if Long(token) then
      var cut := Cut(token[2..], '=');
      var o := Named(options, cut.0);
      if o.Some? && o.value.acceptsValue && cut.1.None? then 1 else 0
    else if Dashed(token) && |token| > 1 then Wanting(options, token[1..])
    else 0
  }

  /** The roles of the tokens, one after the other; an option is followed by the values it takes. */
  function Roles(options: seq<Switch>, argv: seq<string>, literal: bool): seq<Role>
    decreases |argv|
  {
    if argv == [] then []
    else
      var token, rest := argv[0], argv[1..];
      if literal then [Positional] + Roles(options, rest, true)
      else if token == "--" then [Separator] + Roles(options, rest, true)
      else if Dashed(token) && |token| > 1 then
        var taken := if TakenBy(options, token) <= |rest| then TakenBy(options, token) else |rest|;
        [OptionToken] + seq(taken, _ => OptionValue) + Roles(options, rest[taken..], false)
      else [Positional] + Roles(options, rest, false)
  }

  function Picked(argv: seq<string>, roles: seq<Role>): seq<string> {
    if argv == [] || roles == [] then []
    else (if roles[0].Positional? then [argv[0]] else []) + Picked(argv[1..], roles[1..])
  }

  lemma {:induction false} ClusterTakesWanted(options: seq<Switch>, letters: string, rest: seq<string>, opts: Values)
    requires Cluster(options, letters, rest, opts).Ok?
    ensures Wanting(options, letters) <= |rest|
    ensures Cluster(options, letters, rest, opts).value.1 == rest[Wanting(options, letters)..]
    decreases |letters|
  {
    if letters != "" {
      var applied := Apply(opts, Lettered(options, letters[0]).value, None, Head(rest)).value;
      ClusterTakesWanted(options, letters[1..], rest[applied.1..], applied.0);
      assert rest[applied.1..][Wanting(options, letters[1..])..] == rest[Wanting(options, letters)..];
    }
  }

  lemma {:induction false} ClusterTakesUndashed(options: seq<Switch>, letters: string, rest: seq<string>,
                                                opts: Values, i: nat)
    requires Cluster(options, letters, rest, opts).Ok? && i < Wanting(options, letters) && i < |rest|
    ensures !Dashed(rest[i])
    decreases |letters|
  {
    if letters != "" {
      var applied := Apply(opts, Lettered(options, letters[0]).value, None, Head(rest)).value;
      if i >= applied.1 {
        ClusterTakesUndashed(options, letters[1..], rest[applied.1..], applied.0, i - applied.1);
      }
    }
  }

  lemma {:induction false} PickedSkips(argv: seq<string>, taken: nat, roles: seq<Role>)
    requires taken <= |argv|
    ensures Picked(argv, seq(taken, _ => OptionValue) + roles) == Picked(argv[taken..], roles)
  {
    var all := seq(taken, _ => OptionValue) + roles;
    if taken == 0 {
      assert all == roles;
    } else {
      assert all[1..] == seq(taken - 1, _ => OptionValue) + roles;
      PickedSkips(argv[1..], taken - 1, roles);
      assert argv[1..][taken - 1..] == argv[taken..];
    }
  }

  /** Only an option takes values, none of them dashed; only a `--` separates. */
  predicate RoleFits(argv: seq<string>, roles: seq<Role>, i: nat)
    requires i < |argv| == |roles|
  {
    match roles[i]
    case Positional => true
    case Separator => argv[i] == "--"
    case OptionToken => Dashed(argv[i]) && |argv[i]| > 1 && argv[i] != "--"
    case OptionValue => !Dashed(argv[i]) && i > 0 && (roles[i - 1].OptionToken? || roles[i - 1].OptionValue?)
  }

  ghost predicate Sensible(argv: seq<string>, roles: seq<Role>) {
    |roles| == |argv| && forall i :: 0 <= i < |argv| ==> RoleFits(argv, roles, i)
  }

  lemma {:induction false} LiteralTokens(options: seq<Switch>, argv: seq<string>, opts: Values, positional: seq<string>)
    ensures Scan(options, argv, opts, positional, true) == Ok(Scanned(opts, positional + argv))
  {
    if argv == [] {
      assert positional + argv == positional;
    } else {
      LiteralTokens(options, argv[1..], opts, positional + [argv[0]]);
      assert positional + [argv[0]] + argv[1..] == positional + argv;
    }
  }

  lemma {:induction false} LiteralRoles(options: seq<Switch>, argv: seq<string>)
    ensures Sensible(argv, Roles(options, argv, true))
  {
    if argv != [] {
      LiteralRoles(options, argv[1..]);
      OneMoreRole(argv, Positional, Roles(options, argv[1..], true));
    }
  }

  lemma {:induction false} LiteralPicked(options: seq<Switch>, argv: seq<string>)
    ensures Picked(argv, Roles(options, argv, true)) == argv
  {
    if argv != [] {
      LiteralPicked(options, argv[1..]);
      assert Roles(options, argv, true)[1..] == Roles(options, argv[1..], true);
    }
  }

  lemma AfterSeparator(options: seq<Switch>, argv: seq<string>, opts: Values, positional: seq<string>)
    requires argv != [] && argv[0] == "--"
    ensures Scan(options, argv, opts, positional, false) == Ok(Scanned(opts, positional + argv[1..]))
  {
    ReadSeparator(options, argv, opts, positional);
    LiteralTokens(options, argv[1..], opts, positional);
  }

  predicate IsOption(token: string) {
    Dashed(token) && |token| > 1 && token != "--"
  }

  lemma ReadPlain(options: seq<Switch>, argv: seq<string>, opts: Values, positional: seq<string>)
    requires argv != [] && !IsOption(argv[0]) && argv[0] != "--"
    ensures Scan(options, argv, opts, positional, false)
            == Scan(options, argv[1..], opts, positional + [argv[0]], false)
  {}

  lemma ReadSeparator(options: seq<Switch>, argv: seq<string>, opts: Values, positional: seq<string>)
    requires argv != [] && argv[0] == "--"
    ensures Scan(options, argv, opts, positional, false) == Scan(options, argv[1..], opts, positional, true)
  {}

  lemma PlainRole(options: seq<Switch>, argv: seq<string>)
    requires argv != [] && !IsOption(argv[0])
    ensures Roles(options, argv, false)
            == if argv[0] == "--" then [Separator] + Roles(options, argv[1..], true)
               else [Positional] + Roles(options, argv[1..], false)
  {}

  lemma OptionRole(options: seq<Switch>, argv: seq<string>)
    requires argv != [] && IsOption(argv[0]) && TakenBy(options, argv[0]) < |argv|
    ensures var taken := TakenBy(options, argv[0]);
            Roles(options, argv, false)
            == [OptionToken] + seq(taken, _ => OptionValue) + Roles(options, argv[1..][taken..], false)
  {}

  /** Once the tokens are read, only the arguments remain to be bound. */
  lemma ParseFrom(d: Definition, argv: seq<string>, opts: Values, positional: seq<string>)
    requires Scan(d.options, argv, Defaults(d.options), [], false) == Ok(Scanned(opts, positional))
    ensures var bound := Bind(d.arguments, positional, 0, map[]);
            Parse(d, argv) == if bound.Err? then Err(bound.error) else Ok(Parsed(bound.value, opts))
  {}

  lemma {:induction false} RolesAreSensible(options: seq<Switch>, argv: seq<string>, opts: Values,
                                            positional: seq<string>)
    requires Scan(options, argv, opts, positional, false).Ok?
    ensures Sensible(argv, Roles(options, argv, false))
    decreases |argv|
  {
    if argv != [] {
      var token, rest := argv[0], argv[1..];
      if IsOption(token) {
        var taken := TakenBy(options, token);
        var after := AfterOption(options, argv, opts, positional);
        OptionRole(options, argv);
        RolesAreSensible(options, rest[taken..], after, positional);
        OptionRoles(argv, taken, Roles(options, rest[taken..], false));
      } else {
        PlainRole(options, argv);
        if token == "--" {
          LiteralRoles(options, rest);
          OneMoreRole(argv, Separator, Roles(options, rest, true));
        } else {
          ReadPlain(options, argv, opts, positional);
          RolesAreSensible(options, rest, opts, positional + [token]);
          OneMoreRole(argv, Positional, Roles(options, rest, false));
        }
      }
    }
  }

  /** Without an option in front, the first token is positional unless it is the separator. */
  lemma PlainPicked(options: seq<Switch>, argv: seq<string>)
    requires argv != [] && !IsOption(argv[0])
    ensures Picked(argv, Roles(options, argv, false))
            == if argv[0] == "--" then Picked(argv[1..], Roles(options, argv[1..], true))
               else [argv[0]] + Picked(argv[1..], Roles(options, argv[1..], false))
  {
    PlainRole(options, argv);
    assert Roles(options, argv, false)[1..] == Roles(options, argv[1..], argv[0] == "--");
  }

  lemma PickedAfterOption(argv: seq<string>, taken: nat, roles: seq<Role>)
    requires taken < |argv|
    ensures Picked(argv, [OptionToken] + seq(taken, _ => OptionValue) + roles) == Picked(argv[1..][taken..], roles)
  {
    var all := [OptionToken] + seq(taken, _ => OptionValue) + roles;
    assert all[1..] == seq(taken, _ => OptionValue) + roles;
    PickedSkips(argv[1..], taken, roles);
  }

  lemma OptionPicked(options: seq<Switch>, argv: seq<string>)
    requires argv != [] && IsOption(argv[0]) && TakenBy(options, argv[0]) < |argv|
    ensures var rest := argv[1..][TakenBy(options, argv[0])..];
            Picked(argv, Roles(options, argv, false)) == Picked(rest, Roles(options, rest, false))
  {
    OptionRole(options, argv);
    PickedAfterOption(argv, TakenBy(options, argv[0]), Roles(options, argv[1..][TakenBy(options, argv[0])..], false));
  }

  lemma {:induction false} PositionalsArePicked(options: seq<Switch>, argv: seq<string>, opts: Values,
                                                positional: seq<string>)
    requires Scan(options, argv, opts, positional, false).Ok?
    ensures Scan(options, argv, opts, positional, false).value.positional
            == positional + Picked(argv, Roles(options, argv, false))
    decreases |argv|
  {
    if argv != [] {
      var token, rest := argv[0], argv[1..];
      if IsOption(token) {
        var after := AfterOption(options, argv, opts, positional);
        OptionPicked(options, argv);
        PositionalsArePicked(options, rest[TakenBy(options, token)..], after, positional);
      } else if token == "--" {
        AfterSeparator(options, argv, opts, positional);
        LiteralPicked(options, rest);
        PlainPicked(options, argv);
      } else {
        ReadPlain(options, argv, opts, positional);
        PlainPicked(options, argv);
        PositionalsArePicked(options, rest, opts, positional + [token]);
      }
    }
  }

  /**
   * When the tokens can be read, each has exactly one role, and the positionals are the
   * tokens of that role in their order.
   */
  lemma EachTokenOnce(options: seq<Switch>, argv: seq<string>, opts: Values)
    requires Scan(options, argv, opts, [], false).Ok?
    ensures Sensible(argv, Roles(options, argv, false))
    ensures Scan(options, argv, opts, [], false).value.positional == Picked(argv, Roles(options, argv, false))
  {
    RolesAreSensible(options, argv, opts, []);
    PositionalsArePicked(options, argv, opts, []);
  }

  lemma AfterOption(options: seq<Switch>, argv: seq<string>, opts: Values,
                    positional: seq<string>) returns (after: Values)
    requires argv != [] && IsOption(argv[0])
    requires Scan(options, argv, opts, positional, false).Ok?
    ensures var taken := TakenBy(options, argv[0]);
            && taken < |argv| && (forall i :: 0 < i <= taken ==> !Dashed(argv[i]))
            && Scan(options, argv, opts, positional, false)
               == Scan(options, argv[1..][taken..], after, positional, false)
  {
    var token, rest := argv[0], argv[1..];
    if Long(token) {
      var cut := Cut(token[2..], '=');
      after := Apply(opts, Named(options, cut.0).value, cut.1, Head(rest)).value.0;
    } else {
      ClusterTakesWanted(options, token[1..], rest, opts);
      after := Cluster(options, token[1..], rest, opts).value.0;
      forall i | 0 < i <= TakenBy(options, token) ensures !Dashed(argv[i]) {
        ClusterTakesUndashed(options, token[1..], rest, opts, i - 1);
      }
    }
  }

  lemma OneMoreRole(argv: seq<string>, role: Role, roles: seq<Role>)
    requires argv != [] && Sensible(argv[1..], roles) && (role.Positional? || (role.Separator? && argv[0] == "--"))
    ensures Sensible(argv, [role] + roles)
    ensures Picked(argv, [role] + roles) == (if role.Positional? then [argv[0]] else []) + Picked(argv[1..], roles)
  {
    var all := [role] + roles;
    assert all[1..] == roles;
    forall i | 0 <= i < |argv| ensures RoleFits(argv, all, i) {
      assert i > 0 ==> RoleFits(argv[1..], roles, i - 1);
    }
  }

  lemma OptionRoles(argv: seq<string>, taken: nat, roles: seq<Role>)
    requires taken < |argv| && IsOption(argv[0]) && forall i :: 0 < i <= taken ==> !Dashed(argv[i])
    requires Sensible(argv[1..][taken..], roles)
    ensures var all := [OptionToken] + seq(taken, _ => OptionValue) + roles;
            Sensible(argv, all) && Picked(argv, all) == Picked(argv[1..][taken..], roles)
  {
    var all := [OptionToken] + seq(taken, _ => OptionValue) + roles;
    assert all[1..] == seq(taken, _ => OptionValue) + roles;
    PickedSkips(argv[1..], taken, roles);
    forall i | 0 <= i < |argv| ensures RoleFits(argv, all, i) {
      if i > taken {
        assert RoleFits(argv[1..][taken..], roles, i - taken - 1);
      } else if i > 0 {
        assert all[i] == OptionValue && all[i - 1] == if i == 1 then OptionToken else OptionValue;
      }
    }
  }

  // ------------------------------------------------------------------ lines that cannot be read

  /** The option itself is at fault: nobody declares it, or its value is missing. */
  predicate FailsAt(options: seq<Switch>, token: string, rest: seq<string>, opts: Values) {
    && IsOption(token)
    && if Long(token) then
         var cut := Cut(token[2..], '=');
         var o := Named(options, cut.0);
         o.None? || Apply(opts, o.value, cut.1, Head(rest)).Err?
       else Cluster(options, token[1..], rest, opts).Err?
  }

  /** A run of letters looks no further than the values it takes. */
  lemma {:induction false} ClusterLooksNoFurther(options: seq<Switch>, letters: string, rest: seq<string>, opts: Values,
                                                 n: nat)
    requires Cluster(options, letters, rest, opts).Ok? && Wanting(options, letters) <= n <= |rest|
    ensures Cluster(options, letters, rest[..n], opts)
            == Ok((Cluster(options, letters, rest, opts).value.0, rest[..n][Wanting(options, letters)..]))
    decreases |letters|
  {
    if letters != "" {
      var o := Lettered(options, letters[0]).value;
      var applied := Apply(opts, o, None, Head(rest)).value;
      ClusterTakesWanted(options, letters[1..], rest[applied.1..], applied.0);
      ClusterLooksNoFurther(options, letters[1..], rest[applied.1..], applied.0, n - applied.1);
      assert rest[..n][applied.1..] == rest[applied.1..][..n - applied.1];
      assert rest[..n][applied.1..][Wanting(options, letters[1..])..] == rest[..n][Wanting(options, letters)..];
    }
  }

  /** An option that does not fail leaves the same options behind wherever the line is cut off after its values. */
  lemma OptionLooksNoFurther(options: seq<Switch>, token: string, rest: seq<string>, opts: Values,
                             positional: seq<string>) returns (after: Values)
    requires IsOption(token) && !FailsAt(options, token, rest, opts)
    ensures TakenBy(options, token) <= |rest|
    ensures forall n :: TakenBy(options, token) <= n <= |rest| ==>
              ScanFirst(options, token, rest[..n], opts, positional, false)
              == Scan(options, rest[..n][TakenBy(options, token)..], after, positional, false)
  {
    var taken := TakenBy(options, token);
    if Long(token) {
      var cut := Cut(token[2..], '=');
      after := Apply(opts, Named(options, cut.0).value, cut.1, Head(rest)).value.0;
    } else {
      ClusterTakesWanted(options, token[1..], rest, opts);
      after := Cluster(options, token[1..], rest, opts).value.0;
      forall n | taken <= n <= |rest|
        ensures ScanFirst(options, token, rest[..n], opts, positional, false)
                == Scan(options, rest[..n][taken..], after, positional, false)
      {
        ClusterLooksNoFurther(options, token[1..], rest, opts, n);
      }
    }
  }

  /** The tokens before the `i`th are read, it is at fault in the state they leave, and the line fails as it does. */
  predicate BreaksAt(options: seq<Switch>, argv: seq<string>, opts: Values, positional: seq<string>, i: nat) {
    && i < |argv|
    && var before := Scan(options, argv[..i], opts, positional, false);
    && before.Ok?
    && FailsAt(options, argv[i], argv[i + 1..], before.value.opts)
    && Scan(options, argv, opts, positional, false)
       == Scan(options, argv[i..], before.value.opts, before.value.positional, false)
  }

  lemma PlainBreaks(options: seq<Switch>, argv: seq<string>, opts: Values, positional: seq<string>, k: nat)
    requires argv != [] && !IsOption(argv[0]) && argv[0] != "--"
    requires BreaksAt(options, argv[1..], opts, positional + [argv[0]], k)
    ensures BreaksAt(options, argv, opts, positional, k + 1)
  {
    var i, rest := k + 1, argv[1..];
    assert argv[..i][0] == argv[0] && argv[..i][1..] == rest[..k]
           && argv[i..] == rest[k..] && argv[i + 1..] == rest[k + 1..];
    ReadPlain(options, argv, opts, positional);
    ReadPlain(options, argv[..i], opts, positional);
  }

  lemma OptionBreaks(options: seq<Switch>, argv: seq<string>, opts: Values, positional: seq<string>, after: Values,
                     taken: nat, k: nat)
    requires argv != [] && taken < |argv| && BreaksAt(options, argv[1..][taken..], after, positional, k)
    requires forall n :: taken <= n < |argv| ==>
               ScanFirst(options, argv[0], argv[1..][..n], opts, positional, false)
               == Scan(options, argv[1..][..n][taken..], after, positional, false)
    ensures BreaksAt(options, argv, opts, positional, 1 + taken + k)
  {
    var i, rest := 1 + taken + k, argv[1..];
    assert rest[..|rest|] == rest;
    assert argv[..i][0] == argv[0] && argv[..i][1..] == rest[..taken + k]
           && rest[..taken + k][taken..] == rest[taken..][..k];
    assert argv[i..] == rest[taken..][k..] && argv[i + 1..] == rest[taken..][k + 1..];
  }

  lemma {:induction false} SomeTokenBreaks(options: seq<Switch>, argv: seq<string>, opts: Values,
                                           positional: seq<string>) returns (i: nat)
    requires Scan(options, argv, opts, positional, false).Err?
    ensures BreaksAt(options, argv, opts, positional, i)
    decreases |argv|
  {
    var token, rest := argv[0], argv[1..];
    if !IsOption(token) {
      if token == "--" {
        AfterSeparator(options, argv, opts, positional);
      }
      ReadPlain(options, argv, opts, positional);
      var k := SomeTokenBreaks(options, rest, opts, positional + [token]);
      PlainBreaks(options, argv, opts, positional, k);
      i := k + 1;
    } else if FailsAt(options, token, rest, opts) {
      i := 0;
    } else {
      var taken := TakenBy(options, token);
      var after := OptionLooksNoFurther(options, token, rest, opts, positional);
      assert rest[..|rest|] == rest;
      var k := SomeTokenBreaks(options, rest[taken..], after, positional);
      OptionBreaks(options, argv, opts, positional, after, taken, k);
      i := 1 + taken + k;
    }
  }

  // ------------------------------------------------------------------ what the error says

  /** The first option of that name, or of that letter, where an option is looked up. */
  predicate FirstNamed(options: seq<Switch>, name: string, i: int) {
    0 <= i < |options| && options[i].name == name && forall j :: 0 <= j < i ==> options[j].name != name
  }

  predicate FirstLettered(options: seq<Switch>, letter: char, i: int) {
    && 0 <= i < |options| && options[i].shortcut == Some([letter])
    && forall j :: 0 <= j < i ==> options[j].shortcut != Some([letter])
  }

  lemma {:induction false} NamedIsFirst(options: seq<Switch>, name: string) returns (i: nat)
    ensures if Named(options, name).None? then forall k :: 0 <= k < |options| ==> options[k].name != name
            else FirstNamed(options, name, i) && Named(options, name) == Some(options[i])
  {
    i := 0;
    if options != [] && options[0].name != name {
      i := NamedIsFirst(options[1..], name);
      assert forall k :: 0 < k < |options| ==> options[k] == options[1..][k - 1];
      i := i + 1;
    }
  }

  lemma {:induction false} LetteredIsFirst(options: seq<Switch>, letter: char) returns (i: nat)
    ensures if Lettered(options, letter).None?
            then forall k :: 0 <= k < |options| ==> options[k].shortcut != Some([letter])
            else FirstLettered(options, letter, i) && Lettered(options, letter) == Some(options[i])
  {
    i := 0;
    if options != [] && options[0].shortcut != Some([letter]) {
      i := LetteredIsFirst(options[1..], letter);
      assert forall k :: 0 < k < |options| ==> options[k] == options[1..][k - 1];
      i := i + 1;
    }
  }

  /** The name a long option gives: its text up to the first equals sign. */
  predicate Gives(token: string, key: string) {
    '=' !in key && ("--" + key == token || ("--" + key + "=" <= token))
  }

  lemma {:induction false} CutGives(text: string)
    ensures '=' !in Cut(text, '=').0
    ensures text == if Cut(text, '=').1.None? then Cut(text, '=').0 else Cut(text, '=').0 + "=" + Cut(text, '=').1.value
  {
    if text != "" && text[0] != '=' {
      CutGives(text[1..]);
    }
  }

  /** The letter is one of the run and the first option of that letter wants a value. */
  ghost predicate WantsByLetter(options: seq<Switch>, letters: string, name: string, i: int) {
    exists k :: 0 <= k < |letters| && FirstLettered(options, letters[k], i)
                && options[i].name == name && options[i].acceptsValue
  }

  /** The error names what is wrong with the token: who nobody declares, or whose value is missing. */
  ghost predicate Blames(options: seq<Switch>, token: string, error: Error) {
    match error
    case UnknownOption(key) =>
      Long(token) && Gives(token, key) && forall i :: 0 <= i < |options| ==> options[i].name != key
    case UnknownShortcut(letter) =>
      !Long(token) && token != "" && letter in token[1..]
      && forall i :: 0 <= i < |options| ==> options[i].shortcut != Some([letter])
    case NeedsValue(name) =>
      if Long(token) then token == "--" + name && exists i :: FirstNamed(options, name, i) && options[i].acceptsValue
      else token != "" && exists i :: WantsByLetter(options, token[1..], name, i)
    case MissingArgument(_) => false
  }

  lemma {:induction false} ClusterBlames(options: seq<Switch>, letters: string, rest: seq<string>, opts: Values)
    requires Cluster(options, letters, rest, opts).Err?
    ensures match Cluster(options, letters, rest, opts).error
            case UnknownShortcut(letter) =>
              letter in letters && forall i :: 0 <= i < |options| ==> options[i].shortcut != Some([letter])
            case NeedsValue(name) => exists i :: WantsByLetter(options, letters, name, i)
            case _ => false
    decreases |letters|
  {
    var first := LetteredIsFirst(options, letters[0]);
    if Lettered(options, letters[0]).Some? {
      var applied := Apply(opts, options[first], None, Head(rest));
      if applied.Err? {
        assert WantsByLetter(options, letters, options[first].name, first);
      } else {
        var later := letters[1..];
        ClusterBlames(options, later, rest[applied.value.1..], applied.value.0);
        var error := Cluster(options, later, rest[applied.value.1..], applied.value.0).error;
        if error.NeedsValue? {
          var i :| WantsByLetter(options, later, error.name, i);
          var k :| 0 <= k < |later| && FirstLettered(options, later[k], i);
          assert letters[k + 1] == later[k] && WantsByLetter(options, letters, error.name, i);
        }
      }
    }
  }

  lemma OptionBlames(options: seq<Switch>, token: string, rest: seq<string>, opts: Values, positional: seq<string>)
    requires FailsAt(options, token, rest, opts)
    ensures ScanFirst(options, token, rest, opts, positional, false).Err?
    ensures Blames(options, token, ScanFirst(options, token, rest, opts, positional, false).error)
  {
    if Long(token) {
      CutGives(token[2..]);
      assert token == "--" + token[2..];
      var i := NamedIsFirst(options, Cut(token[2..], '=').0);
    } else {
      ClusterBlames(options, token[1..], rest, opts);
    }
  }

  /**
   * A line that cannot be read breaks at one token: each one before it has its role, as in a
   * readable line, and that token is an option nobody declares or one whose value is missing,
   * which the error names.
   */
  lemma ErrorsHaveOneToken(options: seq<Switch>, argv: seq<string>, opts: Values) returns (i: nat)
    requires Scan(options, argv, opts, [], false).Err?
    ensures BreaksAt(options, argv, opts, [], i)
    ensures Sensible(argv[..i], Roles(options, argv[..i], false))
    ensures Scan(options, argv[..i], opts, [], false).value.positional
            == Picked(argv[..i], Roles(options, argv[..i], false))
    ensures Blames(options, argv[i], Scan(options, argv, opts, [], false).error)
  {
    i := SomeTokenBreaks(options, argv, opts, []);
    EachTokenOnce(options, argv[..i], opts);
    var before := Scan(options, argv[..i], opts, [], false).value;
    OptionBlames(options, argv[i], argv[i + 1..], before.opts, before.positional);
    assert argv[i..][0] == argv[i] && argv[i..][1..] == argv[i + 1..];
  }
}
