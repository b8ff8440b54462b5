/**
 * The lenient parser: which required arguments a command line leaves out. It skips option
 * values by itself, so it has to agree with the strict parser about them.
 */
module MissingArguments {
  import opened Options
  import opened Signature
  import opened SignatureProofs
  import RoundTrip

  /** The name the token is looked up by: its dashes and anything from an equals sign on removed. */
  function NameOf(token: string): string {
    Cut(if Long(token) then token[2..] else if Dashed(token) then token[1..] else token, '=').0
  }

  function Either(options: seq<Switch>, name: string): Option<Switch> {
    if options == [] then None
    else if options[0].name == name || options[0].shortcut == Some(name) then Some(options[0])
    else Either(options[1..], name)
  }

  predicate Skips(options: seq<Switch>, token: string) {
    var o := Either(options, NameOf(token));
    o.Some? && o.value.acceptsValue && '=' !in token
  }

  /** The positionals as the lenient parser sees them. */
  function Loose(options: seq<Switch>, argv: seq<string>, literal: bool): seq<string>
    decreases |argv|
  {
    if argv == [] then []
    else
      var token, rest := argv[0], argv[1..];
      if token == "--" then Loose(options, rest, true)
      else if !literal && Dashed(token) && token != "-" then
        Loose(options, if Skips(options, token) && rest != [] then rest[1..] else rest, literal)
      else [token] + Loose(options, rest, literal)
  }

  /** The required arguments from `position` on that `count` positionals do not reach. */
  function Lacking(arguments: seq<Argument>, count: nat, position: nat): seq<Argument> {
    if arguments == [] then []
    else
      (if count <= position && arguments[0].required then [arguments[0]] else [])
      + Lacking(arguments[1..], count, position + 1)
  }

  function Missing(d: Definition, argv: seq<string>): seq<Argument> {
    Lacking(d.arguments, |Loose(d.options, argv, false)|, 0)
  }

  lemma LackingSnoc(arguments: seq<Argument>, count: nat, position: nat, n: nat)
    requires n < |arguments|
    ensures Lacking(arguments[..n + 1], count, position)
            == Lacking(arguments[..n], count, position)
               + if count <= position + n && arguments[n].required then [arguments[n]] else []
  {
    if n > 0 {
      LackingSnoc(arguments[1..], count, position + 1, n - 1);
      assert arguments[..n + 1][1..] == arguments[1..][..n] && arguments[..n][1..] == arguments[1..][..n - 1];
    }
  }

  method FindMissing(d: Definition, argv: seq<string>) returns (missing: seq<Argument>)
    ensures missing == Missing(d, argv)
  {
    var positional := ReadLoosely(d.options, argv);
    missing := [];
    for n := 0 to |d.arguments|
      invariant missing == Lacking(d.arguments[..n], |positional|, 0)
    {
      LackingSnoc(d.arguments, |positional|, 0, n);
      if |positional| <= n && d.arguments[n].required {
        missing := missing + [d.arguments[n]];
      }
    }
    assert d.arguments[..|d.arguments|] == d.arguments;
  }

  /** The loop over the tokens; an option's value is skipped even where there is none. */
  method ReadLoosely(options: seq<Switch>, argv: seq<string>) returns (positional: seq<string>)
    ensures positional == Loose(options, argv, false)
  {
    positional := [];
    var literal := false;
    var index := 0;
    while index < |argv|
      invariant 0 <= index
      invariant Loose(options, argv, false) == positional + LooseFrom(options, argv, index, literal)
    {
      var token := argv[index];
      LooseStep(options, argv, index, literal);
      index := index + 1;
      if token == "--" {
        literal := true;
      } else if !literal && Dashed(token) && token != "-" {
        if Skips(options, token) {
          index := index + 1;
        }
      } else {
        assert positional + ([token] + LooseFrom(options, argv, index, literal))
               == positional + [token] + LooseFrom(options, argv, index, literal);
        positional := positional + [token];
      }
    }
  }

  function LooseFrom(options: seq<Switch>, argv: seq<string>, index: nat, literal: bool): seq<string> {
    if index <= |argv| then Loose(options, argv[index..], literal) else []
  }

  lemma LooseStep(options: seq<Switch>, argv: seq<string>, index: nat, literal: bool)
    requires index < |argv|
    ensures var token := argv[index];
            LooseFrom(options, argv, index, literal)
            == if token == "--" then LooseFrom(options, argv, index + 1, true)
               else if !literal && Dashed(token) && token != "-" then
                 LooseFrom(options, argv, if Skips(options, token) then index + 2 else index + 1, literal)
               else [token] + LooseFrom(options, argv, index + 1, literal)
  {
    assert argv[index..][0] == argv[index] && argv[index..][1..] == argv[index + 1..];
    if index + 1 < |argv| {
      assert argv[index + 1..][1..] == argv[index + 2..];
    } else {
      assert argv[index + 1..] == [] && Loose(options, [], literal) == [] && Loose(options, [], true) == [];
    }
  }

  // ------------------------------------------------------------------ where the two parsers agree

  /** Shortcuts are single letters, none an equals sign, and none is another option's name. */
  ghost predicate Plain(options: seq<Switch>) {
    && (forall i :: 0 <= i < |options| && options[i].shortcut.Some? ==>
         |options[i].shortcut.value| == 1 && options[i].shortcut.value != "=")
    && (forall i, j :: 0 <= i < |options| && 0 <= j < |options| && i != j && options[j].shortcut.Some? ==>
          options[i].name != options[j].shortcut.value)
  }

  /** Of a run of short options both parsers skip as many of the tokens that follow. */
  predicate SameSkip(options: seq<Switch>, token: string)
    requires IsOption(token)
  {
    Wanting(options, token[1..]) == if Skips(options, token) then 1 else 0
  }

  /** Short options stand alone, or in runs that both parsers skip alike, and only one `--` occurs. */
  predicate Tidy(options: seq<Switch>, argv: seq<string>) {
    if argv == [] then true
    else if argv[0] == "--" then "--" !in argv[1..]
    else
      && (IsOption(argv[0]) && !Long(argv[0]) ==> |argv[0]| == 2 || SameSkip(options, argv[0]))
      && Tidy(options, argv[1..])
  }

  lemma {:induction false} LiteralLoose(options: seq<Switch>, argv: seq<string>)
    requires "--" !in argv
    ensures Loose(options, argv, true) == argv
  {
    if argv != [] {
      LiteralLoose(options, argv[1..]);
    }
  }

  /** By a long name both parsers find the same option. */
  lemma {:induction false} SameByName(options: seq<Switch>, name: string)
    requires Plain(options) && Named(options, name).Some?
    ensures Either(options, name) == Named(options, name)
  {
    if options[0].name != name {
      var found := NamedAt(options[1..], name);
      assert options[1..][found] == options[found + 1];
      assert Plain(options[1..]);
      SameByName(options[1..], name);
    }
  }

  lemma {:induction false} NamedAt(options: seq<Switch>, name: string) returns (i: nat)
    requires Named(options, name).Some?
    ensures i < |options| && options[i].name == name && Named(options, name) == Some(options[i])
  {
    if options[0].name == name {
      i := 0;
    } else {
      var k := NamedAt(options[1..], name);
      i := k + 1;
    }
  }

  lemma {:induction false} LetteredAt(options: seq<Switch>, letter: char) returns (i: nat)
    requires Lettered(options, letter).Some?
    ensures i < |options| && options[i].shortcut == Some([letter]) && Lettered(options, letter) == Some(options[i])
  {
    if options[0].shortcut == Some([letter]) {
      i := 0;
    } else {
      var k := LetteredAt(options[1..], letter);
      i := k + 1;
    }
  }

  /** By a letter as well. */
  lemma {:induction false} SameByLetter(options: seq<Switch>, letter: char)
    requires Plain(options) && Lettered(options, letter).Some?
    ensures Either(options, [letter]) == Lettered(options, letter)
  {
    if options[0].shortcut != Some([letter]) {
      var found := LetteredAt(options[1..], letter);
      assert options[1..][found] == options[found + 1];
      assert Plain(options[1..]);
      SameByLetter(options[1..], letter);
    }
  }

  /** An option that the strict parser reads takes a value there exactly when the lenient one skips one. */
  lemma SkipsWhatIsTaken(options: seq<Switch>, argv: seq<string>, opts: Values, positional: seq<string>)
    requires Plain(options) && argv != [] && IsOption(argv[0])
    requires Long(argv[0]) || |argv[0]| == 2 || SameSkip(options, argv[0])
    requires Scan(options, argv, opts, positional, false).Ok?
    ensures TakenBy(options, argv[0]) == if Skips(options, argv[0]) then 1 else 0
  {
    var token := argv[0];
    if Long(token) {
      var cut := Cut(token[2..], '=');
      SameByName(options, cut.0);
      CutShowsMark(token[2..], '=');
      assert '=' in token <==> '=' in token[2..] by {
        assert token == ['-', '-'] + token[2..];
      }
    } else if |token| == 2 {
      var letter := token[1];
      assert token[1..] == [letter] && token == ['-', letter];
      var i := LetteredAt(options, letter);
      assert letter != '=';
      SameByLetter(options, letter);
      assert NameOf(token) == [letter];
      assert Wanting(options, [letter])
             == (if Lettered(options, letter).value.acceptsValue then 1 else 0) + Wanting(options, [letter][1..]);
    }
  }

  lemma {:induction false} CutShowsMark(s: string, mark: char)
    ensures Cut(s, mark).1.Some? <==> mark in s
  {
    if s != "" && s[0] != mark {
      CutShowsMark(s[1..], mark);
      assert s == [s[0]] + s[1..];
    }
  }

  lemma TidyRest(options: seq<Switch>, argv: seq<string>, taken: nat)
    requires Tidy(options, argv) && argv != [] && argv[0] != "--"
             && taken <= 1 && taken < |argv| && (taken == 1 ==> argv[1] != "--")
    ensures Tidy(options, argv[1..][taken..])
  {
    assert argv[1..][0..] == argv[1..];
  }

  /** The lenient positionals are the strict ones. */
  lemma {:induction false} SamePositionals(options: seq<Switch>, argv: seq<string>, opts: Values,
                                           positional: seq<string>)
    requires Plain(options) && Tidy(options, argv) && Scan(options, argv, opts, positional, false).Ok?
    ensures Scan(options, argv, opts, positional, false).value.positional == positional + Loose(options, argv, false)
    decreases |argv|
  {
    if argv != [] {
      var token, rest := argv[0], argv[1..];
      if token == "--" {
        AfterSeparator(options, argv, opts, positional);
        LiteralLoose(options, rest);
      } else if IsOption(token) {
        var taken := TakenBy(options, token);
        var after := AfterOption(options, argv, opts, positional);
        SkipsWhatIsTaken(options, argv, opts, positional);
        TidyRest(options, argv, taken);
        SamePositionals(options, rest[taken..], after, positional);
        assert taken == 0 ==> rest[taken..] == rest;
        assert Loose(options, argv, false) == Loose(options, rest[taken..], false);
      } else {
        ReadPlain(options, argv, opts, positional);
        SamePositionals(options, rest, opts, positional + [token]);
        assert positional + [token] + Loose(options, rest, false)
               == positional + ([token] + Loose(options, rest, false));
      }
    }
  }

  // ------------------------------------------------------------------ and about the arguments

  ghost predicate ArrayLast(arguments: seq<Argument>) {
    forall i :: 0 <= i < |arguments| - 1 ==> !arguments[i].isArray
  }

  lemma {:induction false} BindNeedsNothingLacking(arguments: seq<Argument>, positional: seq<string>, cursor: nat,
        args: Values)
    requires ArrayLast(arguments)
    ensures var lacking := Lacking(arguments, |positional|, cursor);
            if lacking == [] then Bind(arguments, positional, cursor, args).Ok?
            else Bind(arguments, positional, cursor, args) == Err(MissingArgument(lacking[0].name))
  {
    if arguments != [] {
      var a := arguments[0];
      if a.isArray {
        assert |arguments| == 1;
      } else if cursor < |positional| {
        BindNeedsNothingLacking(arguments[1..], positional, cursor + 1, args[a.name := Text(positional[cursor])]);
      } else if !a.required {
        BindNeedsNothingLacking(arguments[1..], positional, cursor + 1, args[a.name := DefaultOf(a)]);
      }
    }
  }

  /**
   * Where the options can be read, the lenient parser lists nothing exactly when the strict
   * one parses, and otherwise its first entry is the argument the strict one names.
   */
  lemma StrictAndLenientAgree(d: Definition, argv: seq<string>)
    requires Plain(d.options) && Tidy(d.options, argv) && ArrayLast(d.arguments)
    requires Scan(d.options, argv, Defaults(d.options), [], false).Ok?
    ensures Missing(d, argv) == [] <==> Parse(d, argv).Ok?
    ensures Missing(d, argv) != [] ==> Parse(d, argv) == Err(MissingArgument(Missing(d, argv)[0].name))
  {
    var scanned := Scan(d.options, argv, Defaults(d.options), [], false).value;
    SamePositionals(d.options, argv, Defaults(d.options), []);
    assert scanned.positional == Loose(d.options, argv, false);
    BindNeedsNothingLacking(d.arguments, scanned.positional, 0, map[]);
    ParseFrom(d, argv, scanned.opts, scanned.positional);
  }

  // ------------------------------------------------------------------ runs of short options

  ghost predicate KnownLetters(options: seq<Switch>, letters: string) {
    forall i :: 0 <= i < |letters| ==> Lettered(options, letters[i]).Some?
  }

  lemma {:induction false} LettersRead(options: seq<Switch>, letters: string, rest: seq<string>, opts: Values)
    requires KnownLetters(options, letters) && Wanting(options, letters) <= |rest|
    requires forall i :: 0 <= i < |rest| ==> !Dashed(rest[i])
    ensures Cluster(options, letters, rest, opts).Ok?
    decreases |letters|
  {
    if letters != "" {
      var o := Lettered(options, letters[0]).value;
      var applied := Apply(opts, o, None, Head(rest)).value;
      assert KnownLetters(options, letters[1..]);
      LettersRead(options, letters[1..], rest[applied.1..], applied.0);
    }
  }

  lemma {:induction false} UndashedStay(options: seq<Switch>, argv: seq<string>)
    requires forall i :: 0 <= i < |argv| ==> !Dashed(argv[i])
    ensures Loose(options, argv, false) == argv && Tidy(options, argv)
  {
    if argv != [] {
      UndashedStay(options, argv[1..]);
    }
  }

  /** Of a run followed by plain words the strict parser keeps what the run does not want. */
  lemma RunThenWords(options: seq<Switch>, token: string, words: seq<string>, opts: Values)
    requires IsOption(token) && !Long(token) && KnownLetters(options, token[1..])
    requires Wanting(options, token[1..]) <= |words| && forall i :: 0 <= i < |words| ==> !Dashed(words[i])
    ensures Scan(options, [token] + words, opts, [], false).Ok?
    ensures Scan(options, [token] + words, opts, [], false).value.positional == words[Wanting(options, token[1..])..]
  {
    LettersRead(options, token[1..], words, opts);
    ClusterTakesWanted(options, token[1..], words, opts);
    var left := words[Wanting(options, token[1..])..];
    var after := Cluster(options, token[1..], words, opts).value.0;
    assert ([token] + words)[1..] == words;
    UndashedArePositional(options, left, after, []);
    assert ScanFirst(options, token, words, opts, [], false) == Scan(options, left, after, [], false);
    assert [] + left == left;
  }

  /** And the lenient one what it does not skip. */
  lemma RunThenWordsLoosely(options: seq<Switch>, token: string, words: seq<string>)
    requires IsOption(token) && forall i :: 0 <= i < |words| ==> !Dashed(words[i])
    ensures Loose(options, [token] + words, false) == if Skips(options, token) && words != [] then words[1..] else words
  {
    var left := if Skips(options, token) && words != [] then words[1..] else words;
    assert ([token] + words)[1..] == words;
    UndashedStay(options, left);
  }

  /** Whatever tidy tokens follow a run, the parsers see the same positionals. */
  ghost predicate AgreeAfter(options: seq<Switch>, token: string, opts: Values) {
    forall rest :: Tidy(options, rest) && Scan(options, [token] + rest, opts, [], false).Ok? ==>
      Scan(options, [token] + rest, opts, [], false).value.positional == Loose(options, [token] + rest, false)
  }

  /** On a run of known letters the parsers agree exactly when both skip as many of the tokens that follow. */
  lemma RunsAgreeExactlyWhen(options: seq<Switch>, token: string, opts: Values)
    requires Plain(options) && IsOption(token) && !Long(token) && KnownLetters(options, token[1..])
    ensures AgreeAfter(options, token, opts) <==> SameSkip(options, token)
  {
    if SameSkip(options, token) {
      forall rest | Tidy(options, rest) && Scan(options, [token] + rest, opts, [], false).Ok?
        ensures Scan(options, [token] + rest, opts, [], false).value.positional == Loose(options, [token] + rest, false)
      {
        assert ([token] + rest)[1..] == rest;
        SamePositionals(options, [token] + rest, opts, []);
      }
    } else {
      var wanted := Wanting(options, token[1..]);
      var words := seq(if wanted == 0 then 1 else wanted, _ => "x");
      RunThenWords(options, token, words, opts);
      RunThenWordsLoosely(options, token, words);
      UndashedStay(options, words);
    }
  }

  /** Flags may share a dash, as long as no option that takes a value is called by all their letters. */
  lemma FlagsMayShareADash(options: seq<Switch>, token: string)
    requires IsOption(token) && !Long(token)
    requires forall i :: 0 < i < |token| ==>
               Lettered(options, token[i]).Some? && !Lettered(options, token[i]).value.acceptsValue
    requires Either(options, token[1..]).Some? ==> !Either(options, token[1..]).value.acceptsValue
    ensures SameSkip(options, token)
  {
    FlagsWantNothing(options, token[1..]);
    if '=' !in token {
      RoundTrip.CutAt(token[1..], "", '=');
    }
  }

  lemma {:induction false} FlagsWantNothing(options: seq<Switch>, letters: string)
    requires forall i :: 0 <= i < |letters| ==>
               Lettered(options, letters[i]).Some? && !Lettered(options, letters[i]).value.acceptsValue
    ensures Wanting(options, letters) == 0
  {
    if letters != "" {
      FlagsWantNothing(options, letters[1..]);
    }
  }

  // ------------------------------------------------------------------ answering the questions

  ghost predicate RequiredFirst(arguments: seq<Argument>) {
    forall i, j :: 0 <= i < j < |arguments| && arguments[j].required ==> arguments[i].required
  }

  lemma {:induction false} AnswersFill(arguments: seq<Argument>, count: nat, position: nat)
    requires RequiredFirst(arguments)
    ensures var missing := |Lacking(arguments, count, position)|;
            Lacking(arguments, (if count < position then position else count) + missing, position) == []
  {
    if arguments != [] {
      var reach := (if count < position then position else count) + |Lacking(arguments, count, position)|;
      AnswersFill(arguments[1..], count, position + 1);
      if count <= position && !arguments[0].required {
        NoneRequired(arguments[1..], count, position + 1);
        NoneRequired(arguments[1..], reach, position + 1);
      }
    }
  }

  lemma {:induction false} NoneRequired(arguments: seq<Argument>, count: nat, position: nat)
    requires forall i :: 0 <= i < |arguments| ==> !arguments[i].required
    ensures Lacking(arguments, count, position) == []
  {
    if arguments != [] {
      NoneRequired(arguments[1..], count, position + 1);
    }
  }

  lemma {:induction false} UndashedArePositional(options: seq<Switch>, argv: seq<string>, opts: Values,
                                                 positional: seq<string>)
    requires forall i :: 0 <= i < |argv| ==> !Dashed(argv[i])
    ensures Scan(options, argv, opts, positional, false) == Ok(Scanned(opts, positional + argv))
  {
    if argv == [] {
      assert positional + argv == positional;
    } else {
      ReadPlain(options, argv, opts, positional);
      UndashedArePositional(options, argv[1..], opts, positional + [argv[0]]);
      assert positional + [argv[0]] + argv[1..] == positional + argv;
    }
  }

  /** Tokens that start with no dash and come last are read as they are. */
  lemma {:induction false} AppendedArePositional(options: seq<Switch>, argv: seq<string>, answers: seq<string>,
                                                 opts: Values,
                                                 positional: seq<string>)
    requires Scan(options, argv, opts, positional, false).Ok? && forall i :: 0 <= i < |answers| ==> !Dashed(answers[i])
    ensures var before := Scan(options, argv, opts, positional, false).value;
            Scan(options, argv + answers, opts, positional, false)
            == Ok(Scanned(before.opts, before.positional + answers))
    decreases |argv|
  {
    var all := argv + answers;
    if argv == [] {
      assert all == answers;
      UndashedArePositional(options, answers, opts, positional);
    } else {
      var token, rest := argv[0], argv[1..];
      assert all[0] == token && all[1..] == rest + answers;
      if token == "--" {
        AppendedLiterally(options, argv, answers, opts, positional);
      } else if IsOption(token) {
        var after := SameOption(options, argv, answers, opts, positional);
        var taken := TakenBy(options, token);
        AppendedArePositional(options, rest[taken..], answers, after, positional);
        assert (rest + answers)[taken..] == rest[taken..] + answers;
      } else {
        ReadPlain(options, argv, opts, positional);
        ReadPlain(options, all, opts, positional);
        AppendedArePositional(options, rest, answers, opts, positional + [token]);
      }
    }
  }

  lemma AppendedLiterally(options: seq<Switch>, argv: seq<string>, answers: seq<string>, opts: Values,
                          positional: seq<string>)
    requires argv != [] && argv[0] == "--"
    ensures Scan(options, argv, opts, positional, false) == Ok(Scanned(opts, positional + argv[1..]))
    ensures Scan(options, argv + answers, opts, positional, false)
            == Ok(Scanned(opts, positional + argv[1..] + answers))
  {
    AfterSeparator(options, argv, opts, positional);
    AfterSeparator(options, argv + answers, opts, positional);
    assert (argv + answers)[1..] == argv[1..] + answers;
    assert positional + (argv[1..] + answers) == positional + argv[1..] + answers;
  }

  /** An option that could be read takes no more when more tokens follow. */
  lemma SameOption(options: seq<Switch>, argv: seq<string>, answers: seq<string>, opts: Values, positional: seq<string>)
    returns (after: Values)
    requires argv != [] && IsOption(argv[0]) && Scan(options, argv, opts, positional, false).Ok?
    ensures var taken := TakenBy(options, argv[0]);
            && taken < |argv|
            && Scan(options, argv, opts, positional, false)
               == Scan(options, argv[1..][taken..], after, positional, false)
            && Scan(options, argv + answers, opts, positional, false)
               == Scan(options, (argv[1..] + answers)[taken..], after, positional, false)
  {
    assert (argv + answers)[1..] == argv[1..] + answers;
    if Long(argv[0]) {
      after := SameLong(options, argv[0], argv[1..], answers, opts, positional);
    } else {
      after := SameShort(options, argv[0], argv[1..], answers, opts, positional);
    }
  }

  lemma SameLong(options: seq<Switch>, token: string, rest: seq<string>, answers: seq<string>, opts: Values,
                 positional: seq<string>)
    returns (after: Values)
    requires Long(token) && token != "--" && ScanFirst(options, token, rest, opts, positional, false).Ok?
    ensures var taken := TakenBy(options, token);
            && taken <= |rest|
            && ScanFirst(options, token, rest, opts, positional, false)
               == Scan(options, rest[taken..], after, positional, false)
            && ScanFirst(options, token, rest + answers, opts, positional, false)
               == Scan(options, (rest + answers)[taken..], after, positional, false)
  {
    var cut := Cut(token[2..], '=');
    var applied := Apply(opts, Named(options, cut.0).value, cut.1, Head(rest));
    assert rest != [] ==> Head(rest + answers) == Head(rest);
    after := applied.value.0;
  }

  lemma SameShort(options: seq<Switch>, token: string, rest: seq<string>, answers: seq<string>, opts: Values,
                  positional: seq<string>)
    returns (after: Values)
    requires IsOption(token) && !Long(token) && ScanFirst(options, token, rest, opts, positional, false).Ok?
    ensures var taken := TakenBy(options, token);
            && taken <= |rest|
            && ScanFirst(options, token, rest, opts, positional, false)
               == Scan(options, rest[taken..], after, positional, false)
            && ScanFirst(options, token, rest + answers, opts, positional, false)
               == Scan(options, (rest + answers)[taken..], after, positional, false)
  {
    ClusterTakesWanted(options, token[1..], rest, opts);
    after := Cluster(options, token[1..], rest, opts).value.0;
    SameCluster(options, token[1..], rest, answers, opts);
    var taken := Wanting(options, token[1..]);
    assert rest[taken..] + answers == (rest + answers)[taken..];
  }

  lemma ApplyAhead(opts: Values, o: Switch, rest: seq<string>, answers: seq<string>)
    requires Apply(opts, o, None, Head(rest)).Ok?
    ensures Apply(opts, o, None, Head(rest + answers)) == Apply(opts, o, None, Head(rest))
    ensures Apply(opts, o, None, Head(rest)).value.1 <= |rest|
  {}

  lemma ClusterStep(options: seq<Switch>, letters: string, rest: seq<string>,
                    opts: Values) returns (after: Values, taken: nat)
    requires letters != "" && Cluster(options, letters, rest, opts).Ok?
    ensures taken <= |rest| && Lettered(options, letters[0]).Some?
    ensures Apply(opts, Lettered(options, letters[0]).value, None, Head(rest)) == Ok((after, taken))
    ensures Cluster(options, letters, rest, opts) == Cluster(options, letters[1..], rest[taken..], after)
  {
    var applied := Apply(opts, Lettered(options, letters[0]).value, None, Head(rest)).value;
    after, taken := applied.0, applied.1;
  }

  lemma {:induction false} SameCluster(options: seq<Switch>, letters: string, rest: seq<string>, answers: seq<string>,
                                       opts: Values)
    requires Cluster(options, letters, rest, opts).Ok?
    ensures var before := Cluster(options, letters, rest, opts).value;
            Cluster(options, letters, rest + answers, opts) == Ok((before.0, before.1 + answers))
    decreases |letters|
  {
    if letters != "" {
      var after, taken := ClusterStep(options, letters, rest, opts);
      ApplyAhead(opts, Lettered(options, letters[0]).value, rest, answers);
      SameCluster(options, letters[1..], rest[taken..], answers, after);
      assert (rest + answers)[taken..] == rest[taken..] + answers;
    }
  }

  /** What the strict parser reads once the answers stand behind the rest. */
  lemma AnswersAreRead(d: Definition, argv: seq<string>, answers: seq<string>) returns (opts: Values)
    requires Plain(d.options) && Tidy(d.options, argv) && Scan(d.options, argv, Defaults(d.options), [], false).Ok?
    requires forall i :: 0 <= i < |answers| ==> !Dashed(answers[i])
    ensures Scan(d.options, argv + answers, Defaults(d.options), [], false)
            == Ok(Scanned(opts, Loose(d.options, argv, false) + answers))
  {
    SamePositionals(d.options, argv, Defaults(d.options), []);
    AppendedArePositional(d.options, argv, answers, Defaults(d.options), []);
    opts := Scan(d.options, argv, Defaults(d.options), [], false).value.opts;
    assert [] + Loose(d.options, argv, false) == Loose(d.options, argv, false);
  }

  /** Answering every question, in order and with no dash in front, completes the command line. */
  lemma AnswersComplete(d: Definition, argv: seq<string>, answers: seq<string>)
    requires Plain(d.options) && Tidy(d.options, argv) && ArrayLast(d.arguments) && RequiredFirst(d.arguments)
    requires Scan(d.options, argv, Defaults(d.options), [], false).Ok?
    requires |answers| == |Missing(d, argv)| && forall i :: 0 <= i < |answers| ==> !Dashed(answers[i])
    ensures Parse(d, argv + answers).Ok?
  {
    var positional := Loose(d.options, argv, false);
    var opts := AnswersAreRead(d, argv, answers);
    AnswersFill(d.arguments, |positional|, 0);
    BindNeedsNothingLacking(d.arguments, positional + answers, 0, map[]);
    ParseFrom(d, argv + answers, opts, positional + answers);
  }
}
