/**
 * The command lines of an input: each option by its name or its letter, each value after an
 * equals sign or as the next token, repeatable options repeated, and the positionals behind
 * `--`, as Guideline 10 of section 12.2 of the POSIX.1-2017 Base Definitions has it. They
 * all parse back to that input.
 */
module RoundTrip {
  import opened Options
  import opened Signature
  import opened SignatureProofs

  // ------------------------------------------------------------------ inputs and how they are written

  /** What an input says of one option. */
  datatype Given = Absent | On | One(text: string) | Many(texts: seq<string>)

  predicate Suits(o: Switch, g: Given) {
    match g
    case Absent => !o.isArray
    case On => !o.acceptsValue
    case One(_) => o.acceptsValue && !o.isArray
    case Many(_) => o.acceptsValue && o.isArray
  }

  /** The value an option ends up with, its default filled in. */
  function Held(o: Switch, g: Given): Value {
    match g
    case Absent => o.fallback
    case On => Flag(true)
    case One(text) => Text(text)
    case Many(texts) => List(texts)
  }

  /** How an option is spelled: `--name=text`, `--name text` or `-n text`. */
  datatype Way = Whole | Apart | Short

  /** Which way is taken for each value of each option. */
  type Style = (string, nat) -> Way

  /** The option can be given by a letter: the first of that letter, one that does not make the token a long one. */
  predicate HasLetter(options: seq<Switch>, o: Switch) {
    && o.shortcut.Some? && |o.shortcut.value| == 1 && o.shortcut.value != "-"
    && exists i :: 0 <= i < |options| && FirstLettered(options, o.shortcut.value[0], i) && options[i] == o
  }

  lemma LetterFinds(options: seq<Switch>, o: Switch)
    requires HasLetter(options, o)
    ensures Lettered(options, o.shortcut.value[0]) == Some(o)
  {
    var letter := o.shortcut.value[0];
    var i :| 0 <= i < |options| && FirstLettered(options, letter, i) && options[i] == o;
    var first := LetteredIsFirst(options, letter);
    assert !(first < i) && !(i < first);
  }

  /** One value; a dashed one has to follow an equals sign. */
  function SpelledValue(options: seq<Switch>, o: Switch, text: string, way: Way): seq<string> {
    if way.Apart? && !Dashed(text) then ["--" + o.name, text]
    else if way.Short? && !Dashed(text) && HasLetter(options, o) then ["-" + o.shortcut.value, text]
    else ["--" + o.name + "=" + text]
  }

  function SpelledFlag(options: seq<Switch>, o: Switch, way: Way): seq<string> {
    if way.Short? && HasLetter(options, o) then ["-" + o.shortcut.value] else ["--" + o.name]
  }

  function Repeated(options: seq<Switch>, o: Switch, texts: seq<string>, style: Style, from: nat): seq<string>
    decreases |texts|
  {
    if texts == [] then []
    else SpelledValue(options, o, texts[0], style(o.name, from)) + Repeated(options, o, texts[1..], style, from + 1)
  }

  function Spelled(options: seq<Switch>, o: Switch, g: Given, style: Style): seq<string> {
    match g
    case Absent => []
    case On => SpelledFlag(options, o, style(o.name, 0))
    case One(text) => Repeated(options, o, [text], style, 0)
    case Many(texts) => Repeated(options, o, texts, style, 0)
  }

  function SpelledAll(all: seq<Switch>, options: seq<Switch>, gs: seq<Given>, style: Style): seq<string>
    requires |gs| == |options|
    decreases |options|
  {
    if options == [] then []
    else Spelled(all, options[0], gs[0], style) + SpelledAll(all, options[1..], gs[1..], style)
  }

  function Flat(texts: seq<seq<string>>): seq<string> {
    if texts == [] then [] else texts[0] + Flat(texts[1..])
  }

  function Canonical(d: Definition, gs: seq<Given>, texts: seq<seq<string>>, style: Style): seq<string>
    requires |gs| == |d.options|
  {
    SpelledAll(d.options, d.options, gs, style) + ["--"] + Flat(texts)
  }

  /** Option names can be told apart, and from the values after them. */
  ghost predicate OptionsOk(options: seq<Switch>) {
    && (forall i :: 0 <= i < |options| ==> options[i].name != "" && '=' !in options[i].name)
    && (forall i, j :: 0 <= i < j < |options| ==> options[i].name != options[j].name)
  }

  ghost predicate ArgumentsOk(arguments: seq<Argument>) {
    && (forall i, j :: 0 <= i < j < |arguments| ==> arguments[i].name != arguments[j].name)
    && (forall i :: 0 <= i < |arguments| - 1 ==> !arguments[i].isArray)
  }

  /** One text at most for a plain argument, some for a required one, and no gaps. */
  ghost predicate TextsOk(arguments: seq<Argument>, texts: seq<seq<string>>) {
    && |texts| == |arguments|
    && (forall i :: 0 <= i < |arguments| && !arguments[i].isArray ==> |texts[i]| <= 1)
    && (forall i :: 0 <= i < |arguments| && arguments[i].required ==> texts[i] != [])
    && (forall i, j :: 0 <= i < j < |arguments| && texts[i] == [] ==> texts[j] == [])
  }

  function HeldArgument(a: Argument, texts: seq<string>): Value {
    if a.isArray then List(texts)
    else if texts != [] then Text(texts[0])
    else
      match a.fallback
      case None => Undefined
      case Some(text) => Text(text)
  }

  // ------------------------------------------------------------------ reading the options back

  lemma {:induction false} CutAt(key: string, value: string, mark: char)
    requires mark !in key
    ensures Cut(key, mark) == (key, None) && Cut(key + [mark] + value, mark) == (key, Some(value))
  {
    var whole := key + [mark] + value;
    if key == "" {
      assert whole[1..] == value;
    } else {
      assert whole[1..] == key[1..] + [mark] + value;
      CutAt(key[1..], value, mark);
      assert [key[0]] + key[1..] == key;
    }
  }

  lemma {:induction false} NamedFinds(options: seq<Switch>, i: nat)
    requires OptionsOk(options) && i < |options|
    ensures Named(options, options[i].name) == Some(options[i])
  {
    if i > 0 {
      assert options[1..][i - 1] == options[i];
      NamedFinds(options[1..], i - 1);
    }
  }

  lemma LetterReads(options: seq<Switch>, o: Switch, rest: seq<string>, opts: Values, positional: seq<string>)
    requires HasLetter(options, o)
    ensures var applied := Apply(opts, o, None, Head(rest));
            Scan(options, ["-" + o.shortcut.value] + rest, opts, positional, false)
            == if applied.Err? then Err(applied.error)
               else Scan(options, rest[applied.value.1..], applied.value.0, positional, false)
  {
    var token := "-" + o.shortcut.value;
    var applied := Apply(opts, o, None, Head(rest));
    LetterFinds(options, o);
    assert ([token] + rest)[1..] == rest && token[1..] == o.shortcut.value && !Long(token) && token != "--";
    assert o.shortcut.value[1..] == "";
    if applied.Ok? {
      assert Cluster(options, "", rest[applied.value.1..], applied.value.0)
          == Ok((applied.value.0, rest[applied.value.1..]));
    }
  }

  lemma FlagReads(options: seq<Switch>, o: Switch, way: Way, rest: seq<string>, opts: Values, positional: seq<string>)
    requires Named(options, o.name) == Some(o) && '=' !in o.name && o.name != "" && !o.acceptsValue
    ensures Scan(options, SpelledFlag(options, o, way) + rest, opts, positional, false)
            == Scan(options, rest, opts[o.name := Flag(true)], positional, false)
  {
    if way.Short? && HasLetter(options, o) {
      LetterReads(options, o, rest, opts, positional);
      assert rest[0..] == rest;
    } else {
      var token := "--" + o.name;
      assert ([token] + rest)[1..] == rest && token[2..] == o.name;
      CutAt(o.name, "", '=');
    }
  }

  lemma WholeReads(options: seq<Switch>, o: Switch, text: string, rest: seq<string>, opts: Values,
                   positional: seq<string>)
    requires Named(options, o.name) == Some(o) && '=' !in o.name && o.acceptsValue
    ensures Scan(options, ["--" + o.name + "=" + text] + rest, opts, positional, false)
            == Scan(options, rest, Stored(opts, o, text), positional, false)
  {
    var token := "--" + o.name + "=" + text;
    assert ([token] + rest)[1..] == rest && token[2..] == o.name + ['='] + text;
    assert |token| > 2;
    CutAt(o.name, text, '=');
  }

  lemma ApartReads(options: seq<Switch>, o: Switch, text: string, rest: seq<string>, opts: Values,
                   positional: seq<string>)
    requires Named(options, o.name) == Some(o) && '=' !in o.name && o.name != "" && o.acceptsValue && !Dashed(text)
    ensures Scan(options, ["--" + o.name, text] + rest, opts, positional, false)
            == Scan(options, rest, Stored(opts, o, text), positional, false)
  {
    var token := "--" + o.name;
    assert ["--" + o.name, text] + rest == [token] + ([text] + rest);
    assert ([token] + ([text] + rest))[1..] == [text] + rest && token[2..] == o.name;
    assert ([text] + rest)[1..] == rest;
    CutAt(o.name, "", '=');
  }

  lemma ShortReads(options: seq<Switch>, o: Switch, text: string, rest: seq<string>, opts: Values,
                   positional: seq<string>)
    requires HasLetter(options, o) && o.acceptsValue && !Dashed(text)
    ensures Scan(options, ["-" + o.shortcut.value, text] + rest, opts, positional, false)
            == Scan(options, rest, Stored(opts, o, text), positional, false)
  {
    assert ["-" + o.shortcut.value, text] + rest == ["-" + o.shortcut.value] + ([text] + rest);
    LetterReads(options, o, [text] + rest, opts, positional);
    assert ([text] + rest)[1..] == rest;
  }

  /** Whichever way a value is spelled, it is stored, and reading goes on behind it. */
  lemma ValueReads(options: seq<Switch>, o: Switch, text: string, way: Way, rest: seq<string>, opts: Values,
                   positional: seq<string>)
    requires Named(options, o.name) == Some(o) && '=' !in o.name && o.name != "" && o.acceptsValue
    ensures Scan(options, SpelledValue(options, o, text, way) + rest, opts, positional, false)
            == Scan(options, rest, Stored(opts, o, text), positional, false)
  {
    if way.Apart? && !Dashed(text) {
      ApartReads(options, o, text, rest, opts, positional);
    } else if way.Short? && !Dashed(text) && HasLetter(options, o) {
      ShortReads(options, o, text, rest, opts, positional);
    } else {
      WholeReads(options, o, text, rest, opts, positional);
    }
  }

  /** A value as a token of its own, behind the name or the letter, reads like one after an equals sign. */
  lemma SpellingsReadAlike(options: seq<Switch>, o: Switch, text: string, rest: seq<string>, opts: Values,
                           positional: seq<string>)
    requires Named(options, o.name) == Some(o) && '=' !in o.name && o.name != "" && o.acceptsValue && !Dashed(text)
    ensures Scan(options, ["--" + o.name, text] + rest, opts, positional, false)
            == Scan(options, ["--" + o.name + "=" + text] + rest, opts, positional, false)
    ensures HasLetter(options, o) ==>
              Scan(options, ["-" + o.shortcut.value, text] + rest, opts, positional, false)
              == Scan(options, ["--" + o.name + "=" + text] + rest, opts, positional, false)
  {
    WholeReads(options, o, text, rest, opts, positional);
    ApartReads(options, o, text, rest, opts, positional);
    if HasLetter(options, o) {
      ShortReads(options, o, text, rest, opts, positional);
    }
  }

  /** How many tokens the first letter of a run takes. */
  function FirstTakes(options: seq<Switch>, letter: char, rest: seq<string>): nat {
    var o := Lettered(options, letter);
    if o.Some? && o.value.acceptsValue && rest != [] && !Dashed(rest[0]) then 1 else 0
  }

  /** A run of letters reads, and fails, as its first letter by itself, with its value, and then the others. */
  lemma RunReadsLetterByLetter(options: seq<Switch>, letter: char, letters: string, rest: seq<string>, opts: Values,
                               positional: seq<string>)
    requires letter != '-' && letters != "" && letters[0] != '-'
    ensures var taken := FirstTakes(options, letter, rest);
            Scan(options, [['-', letter] + letters] + rest, opts, positional, false)
            == Scan(options, [['-', letter]] + rest[..taken] + [['-'] + letters] + rest[taken..],
                    opts, positional, false)
  {
    var taken := FirstTakes(options, letter, rest);
    var run, first, others := ['-', letter] + letters, ['-', letter], ['-'] + letters;
    var tail := rest[..taken] + [others] + rest[taken..];
    assert [first] + rest[..taken] + [others] + rest[taken..] == [first] + tail;
    assert ([run] + rest)[1..] == rest && ([first] + tail)[1..] == tail;
    assert run[1..] == [letter] + letters && first[1..] == [letter] && others[1..] == letters;
    assert ([letter] + letters)[1..] == letters && [letter][1..] == "";
    var o := Lettered(options, letter);
    if o.Some? {
      var applied := Apply(opts, o.value, None, Head(rest));
      FirstLetterApplies(options, o.value, opts, rest, taken, others);
      if applied.Ok? {
        var left := [others] + rest[taken..];
        assert tail[taken..] == left && left[1..] == rest[taken..];
        assert Cluster(options, [letter], tail, opts) == Ok((applied.value.0, left));
        assert Scan(options, [first] + tail, opts, positional, false)
            == Scan(options, left, applied.value.0, positional, false);
        assert ScanFirst(options, others, rest[taken..], applied.value.0, positional, false)
            == Scan(options, left, applied.value.0, positional, false);
      }
    }
  }

  lemma FirstLetterApplies(options: seq<Switch>, o: Switch, opts: Values, rest: seq<string>, taken: nat, others: string)
    requires taken == if o.acceptsValue && rest != [] && !Dashed(rest[0]) then 1 else 0
    requires Dashed(others)
    ensures Apply(opts, o, None, Head(rest)) == Apply(opts, o, None, Head(rest[..taken] + [others] + rest[taken..]))
    ensures Apply(opts, o, None, Head(rest)).Ok? ==> Apply(opts, o, None, Head(rest)).value.1 == taken
  {
    if taken == 1 {
      assert (rest[..taken] + [others] + rest[taken..])[0] == rest[0];
    } else {
      assert (rest[..taken] + [others] + rest[taken..])[0] == others;
    }
  }

  function StoredAll(opts: Values, o: Switch, texts: seq<string>): Values
    decreases |texts|
  {
    if texts == [] then opts else StoredAll(Stored(opts, o, texts[0]), o, texts[1..])
  }

  lemma {:induction false} RepeatedReads(options: seq<Switch>, o: Switch, texts: seq<string>, style: Style, from: nat,
                                         rest: seq<string>, opts: Values, positional: seq<string>)
    requires Named(options, o.name) == Some(o) && '=' !in o.name && o.name != "" && o.acceptsValue
    ensures Scan(options, Repeated(options, o, texts, style, from) + rest, opts, positional, false)
            == Scan(options, rest, StoredAll(opts, o, texts), positional, false)
    decreases |texts|
  {
    if texts == [] {
      assert Repeated(options, o, texts, style, from) + rest == rest;
    } else {
      var first, way := texts[0], style(o.name, from);
      var more := Repeated(options, o, texts[1..], style, from + 1) + rest;
      assert Repeated(options, o, texts, style, from) + rest == SpelledValue(options, o, first, way) + more;
      ValueReads(options, o, first, way, more, opts, positional);
      RepeatedReads(options, o, texts[1..], style, from + 1, rest, Stored(opts, o, first), positional);
    }
  }

  /** A repeated option collects its values in order. */
  lemma {:induction false} StoredCollects(opts: Values, o: Switch, texts: seq<string>)
    requires o.isArray && o.name in opts && opts[o.name].List?
    ensures StoredAll(opts, o, texts) == opts[o.name := List(opts[o.name].items + texts)]
    decreases |texts|
  {
    if texts == [] {
      assert opts[o.name].items + texts == opts[o.name].items;
    } else {
      var next := Stored(opts, o, texts[0]);
      StoredCollects(next, o, texts[1..]);
      assert opts[o.name].items + [texts[0]] + texts[1..] == opts[o.name].items + texts;
    }
  }

  lemma SpelledReads(options: seq<Switch>, o: Switch, g: Given, style: Style, rest: seq<string>, opts: Values,
                     positional: seq<string>)
    requires Named(options, o.name) == Some(o) && '=' !in o.name && o.name != "" && Suits(o, g)
    requires o.name in opts && opts[o.name] == Initial(o)
    ensures Scan(options, Spelled(options, o, g, style) + rest, opts, positional, false)
            == Scan(options, rest, opts[o.name := Held(o, g)], positional, false)
  {
    match g
    case Absent =>
      assert Spelled(options, o, g, style) + rest == rest && opts[o.name := Held(o, g)] == opts;
    case On =>
      FlagReads(options, o, style(o.name, 0), rest, opts, positional);
    case One(text) =>
      RepeatedReads(options, o, [text], style, 0, rest, opts, positional);
      assert StoredAll(opts, o, [text]) == StoredAll(Stored(opts, o, text), o, []);
    case Many(texts) =>
      RepeatedReads(options, o, texts, style, 0, rest, opts, positional);
      StoredCollects(opts, o, texts);
      assert [] + texts == texts;
  }

  function Filled(opts: Values, options: seq<Switch>, gs: seq<Given>): Values
    requires |gs| == |options|
    decreases |options|
  {
    if options == [] then opts else Filled(opts[options[0].name := Held(options[0], gs[0])], options[1..], gs[1..])
  }

  /** The options still to be read, each known by name and still at its first value. */
  ghost predicate Pending(all: seq<Switch>, options: seq<Switch>, gs: seq<Given>, opts: Values) {
    && |gs| == |options| && OptionsOk(options)
    && (forall i :: 0 <= i < |options| ==> Named(all, options[i].name) == Some(options[i]) && Suits(options[i], gs[i]))
    && (forall i :: 0 <= i < |options| ==> options[i].name in opts && opts[options[i].name] == Initial(options[i]))
  }

  lemma {:induction false} AllSpelledRead(all: seq<Switch>, options: seq<Switch>, gs: seq<Given>, style: Style,
                                          rest: seq<string>, opts: Values)
    requires Pending(all, options, gs, opts)
    ensures Scan(all, SpelledAll(all, options, gs, style) + rest, opts, [], false)
            == Scan(all, rest, Filled(opts, options, gs), [], false)
    decreases |options|
  {
    if options == [] {
      assert SpelledAll(all, options, gs, style) + rest == rest;
    } else {
      var o, g := options[0], gs[0];
      var more := SpelledAll(all, options[1..], gs[1..], style) + rest;
      assert SpelledAll(all, options, gs, style) + rest == Spelled(all, o, g, style) + more;
      SpelledReads(all, o, g, style, more, opts, []);
      assert Pending(all, options[1..], gs[1..], opts[o.name := Held(o, g)]);
      AllSpelledRead(all, options[1..], gs[1..], style, rest, opts[o.name := Held(o, g)]);
    }
  }

  lemma {:induction false} FilledHolds(opts: Values, options: seq<Switch>, gs: seq<Given>)
    requires |gs| == |options| && OptionsOk(options) && forall i :: 0 <= i < |options| ==> options[i].name in opts
    ensures Filled(opts, options, gs).Keys == opts.Keys
    ensures forall i :: 0 <= i < |options| ==> Filled(opts, options, gs)[options[i].name] == Held(options[i], gs[i])
    ensures forall k :: k in opts && (forall i :: 0 <= i < |options| ==> options[i].name != k) ==>
              Filled(opts, options, gs)[k] == opts[k]
    decreases |options|
  {
    if options != [] {
      var next := opts[options[0].name := Held(options[0], gs[0])];
      assert OptionsOk(options[1..]);
      FilledHolds(next, options[1..], gs[1..]);
      assert forall i :: 0 < i < |options| ==> options[i] == options[1..][i - 1] && gs[i] == gs[1..][i - 1];
    }
  }

  function NameSet(options: seq<Switch>): set<string> {
    set i | 0 <= i < |options| :: options[i].name
  }

  lemma {:induction false} DefaultsHold(options: seq<Switch>)
    requires OptionsOk(options)
    ensures Defaults(options).Keys == NameSet(options)
    ensures forall i :: 0 <= i < |options| ==>
              options[i].name in Defaults(options) && Defaults(options)[options[i].name] == Initial(options[i])
  {
    if options != [] {
      var front := options[..|options| - 1];
      assert forall i :: 0 <= i < |front| ==> front[i] == options[i];
      DefaultsHold(front);
      assert NameSet(options) == NameSet(front) + {options[|options| - 1].name};
    }
  }

  // ------------------------------------------------------------------ binding the positionals back

  function ArgumentNames(arguments: seq<Argument>): set<string> {
    set i | 0 <= i < |arguments| :: arguments[i].name
  }

  ghost predicate Bound(arguments: seq<Argument>, texts: seq<seq<string>>, before: Values, after: Values)
    requires |texts| == |arguments|
  {
    && after.Keys == before.Keys + ArgumentNames(arguments)
    && (forall i :: 0 <= i < |arguments| ==> after[arguments[i].name] == HeldArgument(arguments[i], texts[i]))
    && (forall k :: k in before && k !in ArgumentNames(arguments) ==> after[k] == before[k])
  }

  lemma {:induction false} FlatOfNothing(texts: seq<seq<string>>)
    requires forall i :: 0 <= i < |texts| ==> texts[i] == []
    ensures Flat(texts) == []
  {
    if texts != [] {
      FlatOfNothing(texts[1..]);
    }
  }

  lemma NamesCons(arguments: seq<Argument>)
    requires arguments != []
    ensures ArgumentNames(arguments) == {arguments[0].name} + ArgumentNames(arguments[1..])
  {
    forall i | 0 < i < |arguments| ensures arguments[i].name in ArgumentNames(arguments[1..]) {
      assert arguments[1..][i - 1] == arguments[i];
    }
    forall i | 0 <= i < |arguments[1..]| ensures arguments[1..][i].name in ArgumentNames(arguments) {
      assert arguments[i + 1] == arguments[1..][i];
    }
  }

  lemma BoundOneMore(arguments: seq<Argument>, texts: seq<seq<string>>, before: Values, after: Values)
    requires |texts| == |arguments| > 0 && ArgumentsOk(arguments)
    requires Bound(arguments[1..], texts[1..], before[arguments[0].name := HeldArgument(arguments[0], texts[0])], after)
    ensures Bound(arguments, texts, before, after)
  {
    NamesCons(arguments);
    assert forall i :: 0 < i < |arguments| ==> arguments[i] == arguments[1..][i - 1] && texts[i] == texts[1..][i - 1];
    assert arguments[0].name !in ArgumentNames(arguments[1..]);
  }

  /** From the cursor on stand exactly the texts of the arguments still to be bound. */
  lemma {:induction false} TextsBind(arguments: seq<Argument>, texts: seq<seq<string>>, positional: seq<string>,
                                     cursor: nat, args: Values)
    requires ArgumentsOk(arguments) && TextsOk(arguments, texts)
    requires if cursor <= |positional| then positional[cursor..] == Flat(texts) else Flat(texts) == []
    ensures Bind(arguments, positional, cursor, args).Ok?
            && Bound(arguments, texts, args, Bind(arguments, positional, cursor, args).value)
  {
    if arguments != [] {
      var a := arguments[0];
      var next := args[a.name := HeldArgument(a, texts[0])];
      var step := if a.isArray then |positional| else cursor + 1;
      OneArgumentBinds(arguments, texts, positional, cursor, args);
      TextsBind(arguments[1..], texts[1..], positional, step, next);
      BoundOneMore(arguments, texts, args, Bind(arguments[1..], positional, step, next).value);
    }
  }

  lemma OneArgumentBinds(arguments: seq<Argument>, texts: seq<seq<string>>, positional: seq<string>, cursor: nat,
                         args: Values)
    requires arguments != [] && ArgumentsOk(arguments) && TextsOk(arguments, texts)
    requires if cursor <= |positional| then positional[cursor..] == Flat(texts) else Flat(texts) == []
    ensures var a := arguments[0];
            var step := if a.isArray then |positional| else cursor + 1;
            && Bind(arguments, positional, cursor, args)
               == Bind(arguments[1..], positional, step, args[a.name := HeldArgument(a, texts[0])])
            && if step <= |positional| then positional[step..] == Flat(texts[1..]) else Flat(texts[1..]) == []
  {
    assert Flat(texts) == texts[0] + Flat(texts[1..]);
    if arguments[0].isArray {
      assert |arguments| == 1 && Flat(texts[1..]) == [];
      assert Flat(texts) == texts[0];
    } else if texts[0] == [] {
      FlatOfNothing(texts);
    } else {
      assert positional[cursor] == texts[0][0]
             && positional[cursor + 1..] == positional[cursor..][1..] == Flat(texts[1..]);
    }
  }

  // ------------------------------------------------------------------ the round trip

  /**
   * For any well-formed definition and input, a command line that spells every option in
   * whichever way parses back to exactly that input, with defaults where it says nothing.
   */
  lemma CanonicalParsesBack(d: Definition, gs: seq<Given>, texts: seq<seq<string>>, style: Style)
    requires OptionsOk(d.options) && |gs| == |d.options| && forall i :: 0 <= i < |gs| ==> Suits(d.options[i], gs[i])
    requires ArgumentsOk(d.arguments) && TextsOk(d.arguments, texts)
    ensures Parse(d, Canonical(d, gs, texts, style)).Ok?
    ensures var parsed := Parse(d, Canonical(d, gs, texts, style)).value;
            && parsed.opts.Keys == NameSet(d.options)
            && (forall i :: 0 <= i < |gs| ==> parsed.opts[d.options[i].name] == Held(d.options[i], gs[i]))
            && Bound(d.arguments, texts, map[], parsed.args)
  {
    var opts := OptionsReadBack(d.options, gs, style, Flat(texts));
    ParseFrom(d, Canonical(d, gs, texts, style), opts, Flat(texts));
    assert Flat(texts)[0..] == Flat(texts);
    TextsBind(d.arguments, texts, Flat(texts), 0, map[]);
  }

  /** The options alone: each holds what was spelled, and the rest is positional. */
  lemma OptionsReadBack(options: seq<Switch>, gs: seq<Given>, style: Style, rest: seq<string>) returns (opts: Values)
    requires OptionsOk(options) && |gs| == |options| && forall i :: 0 <= i < |gs| ==> Suits(options[i], gs[i])
    ensures Scan(options, SpelledAll(options, options, gs, style) + ["--"] + rest, Defaults(options), [], false)
            == Ok(Scanned(opts, rest))
    ensures opts.Keys == NameSet(options)
    ensures forall i :: 0 <= i < |gs| ==> opts[options[i].name] == Held(options[i], gs[i])
  {
    DefaultsHold(options);
    forall i | 0 <= i < |options| ensures Named(options, options[i].name) == Some(options[i]) {
      NamedFinds(options, i);
    }
    var tail := ["--"] + rest;
    var spelled := SpelledAll(options, options, gs, style);
    assert spelled + ["--"] + rest == spelled + tail;
    AllSpelledRead(options, options, gs, style, tail, Defaults(options));
    opts := Filled(Defaults(options), options, gs);
    FilledHolds(Defaults(options), options, gs);
    ReadSeparator(options, tail, opts, []);
    LiteralTokens(options, tail[1..], opts, []);
    assert [] + rest == rest == tail[1..];
  }
}
