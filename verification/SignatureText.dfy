/**
 * The pieces of a declarative signature: what stands between its braces, and the argument
 * or option it declares.
 */
module SignatureText {
  import opened Options
  import opened Signature
  import RoundTrip

  predicate EndsWith(s: string, c: char) {
    s != "" && s[|s| - 1] == c
  }

  function DropLast(s: string): string
    requires s != ""
  {
    s[..|s| - 1]
  }

  /** The marks at the end of an argument's name: a star, and before it a question mark. */
  function Unmarked(s: string): (string, bool, bool) {
    var isArray := EndsWith(s, '*');
    var unstarred := if isArray then DropLast(s) else s;
    var optional := EndsWith(unstarred, '?');
    (if optional then DropLast(unstarred) else unstarred, optional, isArray)
  }

  /** `name`, `name?`, `name*`, `name=default`. */
  function ParseArgument(expression: string): Argument {
    var cut := Cut(expression, '=');
    var marks := Unmarked(cut.0);
    Argument(marks.0, !marks.1 && cut.1.None?, marks.2, cut.1)
  }

  /** What follows a shortcut: `name`, `name=`, `name=default`, `name=*`, `name*`. */
  function ParseBody(shortcut: Option<string>, body: string): Switch {
    var cut := Cut(body, '=');
    var starred := EndsWith(cut.0, '*');
    var repeated := starred || cut.1 == Some("*");
    Switch(if starred then DropLast(cut.0) else cut.0, shortcut, cut.1.Some? || starred, repeated,
           if repeated || cut.1 == Some("") then Undefined
           else if cut.1.Some? then Text(cut.1.value)
           else Flag(false))
  }

  /** An option with its leading dashes removed, and perhaps a shortcut and a bar in front. */
  function ParseOption(expression: string): Switch {
    var piped := Cut(expression, '|');
    if piped.1.Some? then ParseBody(Some(piped.0), piped.1.value) else ParseBody(None, expression)
  }

  /** The same, as it is written: fields reassigned as each mark is found and cut off. */
  method ReadOption(expression: string) returns (o: Switch)
    ensures o == ParseOption(expression)
  {
    var name := expression;
    var shortcut := None;
    var acceptsValue, isArray, fallback := false, false, Flag(false);
    var piped := Cut(name, '|');
    if piped.1.Some? {
      shortcut, name := Some(piped.0), piped.1.value;
    }
    var cut := Cut(name, '=');
    if cut.1.Some? {
      acceptsValue := true;
      if cut.1.value == "*" {
        isArray, fallback := true, Undefined;
      } else {
        fallback := if cut.1.value == "" then Undefined else Text(cut.1.value);
      }
    }
    name := cut.0;
    if EndsWith(name, '*') {
      name, isArray, acceptsValue, fallback := DropLast(name), true, true, Undefined;
    }
    o := Switch(name, shortcut, acceptsValue, isArray, fallback);
  }

  function ValueText(o: Switch): string {
    if o.isArray then "*" else if o.fallback.Text? then o.fallback.text else ""
  }

  function BodyText(o: Switch): string {
    if o.acceptsValue then o.name + ['='] + ValueText(o) else o.name
  }

  /** An option as its signature spells it. */
  function OptionText(o: Switch): string {
    if o.shortcut.Some? then o.shortcut.value + ['|'] + BodyText(o) else BodyText(o)
  }

  /** What a signature can declare: a repeatable option takes values, and only a valued one has a default. */
  predicate Declarable(o: Switch) {
    && '|' !in o.name && '=' !in o.name && !EndsWith(o.name, '*') && (o.shortcut.Some? ==> '|' !in o.shortcut.value)
    && (o.isArray ==> o.acceptsValue && o.fallback == Undefined)
    && (!o.acceptsValue ==> o.fallback == Flag(false))
    && (o.acceptsValue ==>
          || o.fallback == Undefined
          || (o.fallback.Text? && o.fallback.text != "" && o.fallback.text != "*" && '|' !in o.fallback.text))
  }

  lemma BodyReadsBack(o: Switch)
    requires Declarable(o)
    ensures ParseBody(o.shortcut, BodyText(o)) == o
  {
    RoundTrip.CutAt(o.name, ValueText(o), '=');
  }

  /** An option reads back as it was declared. */
  lemma OptionReadsBack(o: Switch)
    requires Declarable(o)
    ensures ParseOption(OptionText(o)) == o
  {
    BodyReadsBack(o);
    if o.shortcut.Some? {
      RoundTrip.CutAt(o.shortcut.value, BodyText(o), '|');
    } else {
      assert '|' !in BodyText(o);
      RoundTrip.CutAt(BodyText(o), "", '|');
    }
  }

  /** A star on the name makes an option repeatable like a star as its value, whatever value follows it. */
  lemma StarMakesRepeatable(shortcut: Option<string>, name: string, text: string)
    requires '=' !in name && !EndsWith(name, '*')
    ensures var repeatable := Switch(name, shortcut, true, true, Undefined);
            && ParseBody(shortcut, name + ['*']) == repeatable
            && ParseBody(shortcut, name + ['='] + ['*']) == repeatable
            && ParseBody(shortcut, name + ['*'] + ['='] + text) == repeatable
  {
    PushedMark(name, '*', '?');
    RoundTrip.CutAt(name, "*", '=');
    RoundTrip.CutAt(name + ['*'], text, '=');
    assert '=' !in name + ['*'];
  }

  /** Whatever the signature says, a repeatable option takes values and starts with none. */
  lemma RepeatableTakesValues(expression: string)
    ensures ParseOption(expression).isArray ==>
              ParseOption(expression).acceptsValue && ParseOption(expression).fallback == Undefined
    ensures ParseOption(expression).acceptsValue || ParseOption(expression).fallback == Flag(false)
  {}

  function MarkedText(name: string, optional: bool, isArray: bool): string {
    var questioned := if optional then name + ['?'] else name;
    if isArray then questioned + ['*'] else questioned
  }

  function ArgumentText(a: Argument): string {
    if a.fallback.Some? then MarkedText(a.name, false, a.isArray) + ['='] + a.fallback.value
    else MarkedText(a.name, !a.required, a.isArray)
  }

  predicate DeclarableArgument(a: Argument) {
    && '=' !in a.name && !EndsWith(a.name, '*') && !EndsWith(a.name, '?')
    && (a.fallback.Some? ==> !a.required)
  }

  lemma PushedMark(s: string, mark: char, other: char)
    requires mark != other
    ensures EndsWith(s + [mark], mark) && DropLast(s + [mark]) == s && !EndsWith(s + [mark], other)
  {}

  lemma QuestionReadsBack(name: string, optional: bool)
    requires !EndsWith(name, '*') && !EndsWith(name, '?')
    ensures Unmarked(MarkedText(name, optional, false)) == (name, optional, false)
  {
    PushedMark(name, '?', '*');
  }

  lemma MarksReadBack(name: string, optional: bool, isArray: bool)
    requires !EndsWith(name, '*') && !EndsWith(name, '?')
    ensures Unmarked(MarkedText(name, optional, isArray)) == (name, optional, isArray)
  {
    QuestionReadsBack(name, optional);
    PushedMark(MarkedText(name, optional, false), '*', '?');
  }

  /** So does an argument. */
  lemma ArgumentReadsBack(a: Argument)
    requires DeclarableArgument(a)
    ensures ParseArgument(ArgumentText(a)) == a
  {
    var optional := !a.required && a.fallback.None?;
    var marked := MarkedText(a.name, optional, a.isArray);
    MarksReadBack(a.name, optional, a.isArray);
    RoundTrip.CutAt(marked, if a.fallback.Some? then a.fallback.value else "", '=');
  }
}
