/**
 * Channel patterns: `orders.{id}` against `orders.7`. A parameter matches one or more
 * characters that are not dots, as the greedy group of the regular expression does, and
 * the first declared pattern that matches a name decides.
 */
module Patterns {
  import opened Options

  // ------------------------------------------------------------------ patterns as pieces

  datatype Piece = Literal(c: char) | Parameter(key: string)

  predicate WordChar(c: char) {
    'a' <= c <= 'z' || 'A' <= c <= 'Z' || '0' <= c <= '9' || c == '_'
  }

  /** How many word characters stand in front. */
  function WordRun(s: string): (n: nat)
    ensures n <= |s|
  {
    if s == "" || !WordChar(s[0]) then 0 else 1 + WordRun(s[1..])
  }

  /** A brace opens a parameter when word characters and a closing brace follow; all else stands for itself. */
  function Pieces(pattern: string): seq<Piece>
    decreases |pattern|
  {
    if pattern == "" then []
    else if pattern[0] == '{' then
      var n := WordRun(pattern[1..]);
      if n > 0 && n + 1 < |pattern| && pattern[n + 1] == '}' then
        [Parameter(pattern[1..n + 1])] + Pieces(pattern[n + 2..])
      else [Literal('{')] + Pieces(pattern[1..])
    else [Literal(pattern[0])] + Pieces(pattern[1..])
  }

  function SpelledPiece(piece: Piece): string {
    match piece
    case Literal(c) => [c]
    case Parameter(key) => ['{'] + key + ['}']
  }

  function Spelled(pieces: seq<Piece>): string {
    if pieces == [] then "" else SpelledPiece(pieces[0]) + Spelled(pieces[1..])
  }

  /** Braces only around parameters, whose names are made of word characters. */
  ghost predicate Clean(pieces: seq<Piece>) {
    forall i :: 0 <= i < |pieces| ==>
      match pieces[i]
      case Literal(c) => c != '{' && c != '}'
      case Parameter(key) => key != "" && forall k :: 0 <= k < |key| ==> WordChar(key[k])
  }

  lemma {:induction false} WordRunStops(key: string, rest: string)
    requires forall k :: 0 <= k < |key| ==> WordChar(key[k])
    requires rest != "" && !WordChar(rest[0])
    ensures WordRun(key + rest) == |key|
  {
    if key == "" {
      assert key + rest == rest;
    } else {
      assert (key + rest)[1..] == key[1..] + rest;
      WordRunStops(key[1..], rest);
    }
  }

  /** A pattern is read back as the pieces it was spelled from. */
  lemma {:induction false} SpelledReadsBack(pieces: seq<Piece>)
    requires Clean(pieces)
    ensures Pieces(Spelled(pieces)) == pieces
  {
    if pieces != [] {
      SpelledReadsBack(pieces[1..]);
      var rest := Spelled(pieces[1..]);
      match pieces[0]
      case Literal(c) =>
        assert ([c] + rest)[1..] == rest;
      case Parameter(key) =>
        ParameterReadsBack(key, rest);
    }
  }

  /** The character so many places after another. */
  predicate After(c: char, first: char, places: int) {
    c as int == first as int + places
  }

  /** The characters of a parameter's name: letters of either case, digits and the underscore. */
  lemma NamesAreMadeOf(c: char)
    ensures WordChar(c) <==> || c == '_' || (exists k :: 0 <= k < 10 && After(c, '0', k))
                             || (exists k :: 0 <= k < 26 && (After(c, 'a', k) || After(c, 'A', k)))
  {
    assert After(c, 'a', c as int - 'a' as int) && After(c, 'A', c as int - 'A' as int);
    assert After(c, '0', c as int - '0' as int);
  }

  lemma {:induction false} WordRunIsWords(s: string)
    ensures forall i :: 0 <= i < WordRun(s) ==> WordChar(s[i])
  {
    if s != "" && WordChar(s[0]) {
      WordRunIsWords(s[1..]);
    }
  }

  predicate Named(piece: Piece) {
    piece.Parameter? ==> piece.key != "" && forall k :: 0 <= k < |piece.key| ==> WordChar(piece.key[k])
  }

  lemma CutAtBraces(pattern: string, n: nat)
    requires n + 1 < |pattern| && pattern[0] == '{' && pattern[n + 1] == '}'
    ensures pattern == ['{'] + pattern[1..n + 1] + ['}'] + pattern[n + 2..]
  {}

  lemma NameIsWords(pattern: string, n: nat)
    requires pattern != "" && n == WordRun(pattern[1..])
    ensures var key := pattern[1..n + 1]; forall k :: 0 <= k < |key| ==> WordChar(key[k])
  {
    WordRunIsWords(pattern[1..]);
    var key, after := pattern[1..n + 1], pattern[1..];
    assert forall k :: 0 <= k < |key| ==> key[k] == after[k];
  }

  /** The first piece takes what it spells off the front of the pattern. */
  lemma FirstPiece(pattern: string) returns (rest: string)
    requires pattern != ""
    ensures Pieces(pattern) != [] && Named(Pieces(pattern)[0]) && Pieces(pattern)[1..] == Pieces(rest)
    ensures pattern == SpelledPiece(Pieces(pattern)[0]) + rest && |rest| < |pattern|
  {
    var n := WordRun(pattern[1..]);
    if Pieces(pattern)[0].Parameter? {
      rest := pattern[n + 2..];
      CutAtBraces(pattern, n);
      NameIsWords(pattern, n);
    } else {
      rest := pattern[1..];
    }
  }

  /** Whatever a pattern is, its pieces spell it, and its parameters have names of word characters. */
  lemma {:induction false} PiecesSpellThePattern(pattern: string)
    ensures Spelled(Pieces(pattern)) == pattern
    ensures forall i :: 0 <= i < |Pieces(pattern)| ==> Named(Pieces(pattern)[i])
    decreases |pattern|
  {
    if pattern != "" {
      var rest := FirstPiece(pattern);
      PiecesSpellThePattern(rest);
      forall i | 0 <= i < |Pieces(pattern)| ensures Named(Pieces(pattern)[i]) {
        assert i > 0 ==> Pieces(pattern)[i] == Pieces(rest)[i - 1];
      }
    }
  }

  lemma ParameterReadsBack(key: string, rest: string)
    requires key != "" && forall k :: 0 <= k < |key| ==> WordChar(key[k])
    ensures Pieces(['{'] + key + ['}'] + rest) == [Parameter(key)] + Pieces(rest)
  {
    var whole := ['{'] + key + ['}'] + rest;
    assert whole[1..] == key + (['}'] + rest);
    WordRunStops(key, ['}'] + rest);
    assert whole[1..|key| + 1] == key && whole[|key| + 2..] == rest;
  }

  // ------------------------------------------------------------------ matching

  /** How many characters stand in front of the first dot. */
  function DotFree(s: string): (n: nat)
    ensures n <= |s| && forall i :: 0 <= i < n ==> s[i] != '.'
    ensures n < |s| ==> s[n] == '.'
  {
    if s == "" || s[0] == '.' then 0 else 1 + DotFree(s[1..])
  }

  /** The values of the parameters in order, or nothing. */
  function Match(pieces: seq<Piece>, name: string): Option<seq<string>>
    decreases |pieces|, 1, 0
  {
    if pieces == [] then if name == "" then Some([]) else None
    else
      match pieces[0]
      case Literal(c) => if name != "" && name[0] == c then Match(pieces[1..], name[1..]) else None
      case Parameter(_) => MatchUpTo(pieces[1..], name, DotFree(name))
  }

  /** A group takes as much as it can, and gives back one character at a time. */
  function MatchUpTo(rest: seq<Piece>, name: string, most: nat): Option<seq<string>>
    requires most <= |name|
    decreases |rest| + 1, 0, most
  {
    if most == 0 then None
    else
      var tail := Match(rest, name[most..]);
      if tail.Some? then Some([name[..most]] + tail.value) else MatchUpTo(rest, name, most - 1)
  }

  function Parameters(pieces: seq<Piece>): seq<string> {
    if pieces == [] then []
    else (if pieces[0].Parameter? then [pieces[0].key] else []) + Parameters(pieces[1..])
  }

  predicate Value(v: string) {
    v != "" && '.' !in v
  }

  predicate Values(vs: seq<string>) {
    forall i :: 0 <= i < |vs| ==> Value(vs[i])
  }

  /** The name with the values put in where the parameters stand. */
  function Filled(pieces: seq<Piece>, vs: seq<string>): string
    requires |vs| == |Parameters(pieces)|
  {
    if pieces == [] then ""
    else
      match pieces[0]
      case Literal(c) => [c] + Filled(pieces[1..], vs)
      case Parameter(_) => vs[0] + Filled(pieces[1..], vs[1..])
  }

  ghost predicate Fits(pieces: seq<Piece>, name: string, vs: seq<string>) {
    |vs| == |Parameters(pieces)| && Values(vs) && Filled(pieces, vs) == name
  }

  // ------------------------------------------------------------------ what a match means

  /** A match gives non-empty values without dots that make up the name again. */
  lemma {:induction false} MatchIsSound(pieces: seq<Piece>, name: string)
    requires Match(pieces, name).Some?
    ensures Fits(pieces, name, Match(pieces, name).value)
    decreases |pieces|, 1, 0
  {
    if pieces != [] {
      match pieces[0]
      case Literal(c) =>
        MatchIsSound(pieces[1..], name[1..]);
        assert [c] + name[1..] == name;
      case Parameter(_) =>
        GroupIsSound(pieces, name, DotFree(name));
    }
  }

  lemma {:induction false} GroupIsSound(pieces: seq<Piece>, name: string, most: nat)
    requires pieces != [] && pieces[0].Parameter? && most <= DotFree(name) && MatchUpTo(pieces[1..], name, most).Some?
    ensures Fits(pieces, name, MatchUpTo(pieces[1..], name, most).value)
    decreases |pieces|, 0, most
  {
    var rest := pieces[1..];
    var tail := Match(rest, name[most..]);
    if tail.Some? {
      MatchIsSound(rest, name[most..]);
      var vs := [name[..most]] + tail.value;
      assert vs[1..] == tail.value && name[..most] + name[most..] == name;
    } else {
      GroupIsSound(pieces, name, most - 1);
    }
  }

  /** And whenever such values exist, there is a match. */
  lemma {:induction false} MatchIsComplete(pieces: seq<Piece>, name: string, vs: seq<string>)
    requires Fits(pieces, name, vs)
    ensures Match(pieces, name).Some?
    decreases |pieces|, 1, 0
  {
    if pieces != [] {
      match pieces[0]
      case Literal(c) =>
        assert name[1..] == Filled(pieces[1..], vs);
        MatchIsComplete(pieces[1..], name[1..], vs);
      case Parameter(_) =>
        ValueInFront(name, vs[0], Filled(pieces[1..], vs[1..]));
        GroupIsComplete(pieces, name, vs, DotFree(name));
    }
  }

  lemma ValueInFront(name: string, v: string, rest: string)
    requires name == v + rest && Value(v)
    ensures |v| <= DotFree(name) && name[..|v|] == v && name[|v|..] == rest
  {
    if DotFree(name) < |v| {
      assert name[DotFree(name)] == v[DotFree(name)];
    }
  }

  lemma {:induction false} GroupIsComplete(pieces: seq<Piece>, name: string, vs: seq<string>, most: nat)
    requires pieces != [] && pieces[0].Parameter? && Fits(pieces, name, vs) && |vs[0]| <= most <= |name|
    ensures MatchUpTo(pieces[1..], name, most).Some?
    decreases |pieces|, 0, most
  {
    if Match(pieces[1..], name[most..]).None? {
      if most == |vs[0]| {
        assert name[most..] == Filled(pieces[1..], vs[1..]);
        MatchIsComplete(pieces[1..], name[most..], vs[1..]);
      } else {
        GroupIsComplete(pieces, name, vs, most - 1);
      }
    }
  }

  /** A name matches exactly when it is the pattern with non-empty dot-free values filled in. */
  lemma MatchesExactlyTheFilled(pieces: seq<Piece>, name: string)
    ensures Match(pieces, name).Some? <==> exists vs :: Fits(pieces, name, vs)
  {
    if Match(pieces, name).Some? {
      MatchIsSound(pieces, name);
    }
    if vs :| Fits(pieces, name, vs) {
      MatchIsComplete(pieces, name, vs);
    }
  }

  // ------------------------------------------------------------------ one parameter to a segment

  /** A dot stands between any two parameters. */
  ghost predicate OneToASegment(pieces: seq<Piece>) {
    forall i, j :: 0 <= i < j < |pieces| && pieces[i].Parameter? && pieces[j].Parameter? ==>
      DotBetween(pieces, i, j)
  }

  ghost predicate DotBetween(pieces: seq<Piece>, i: nat, j: nat)
    requires i < j < |pieces|
  {
    exists k :: i < k < j && pieces[k] == Literal('.')
  }

  /** The literal text in front, up to the first dot or parameter. */
  function Lead(pieces: seq<Piece>): (lead: string)
    ensures '.' !in lead
  {
    if pieces == [] || pieces[0].Parameter? || pieces[0].c == '.' then "" else [pieces[0].c] + Lead(pieces[1..])
  }

  /** No parameter comes before the first dot. */
  predicate LeadEnds(pieces: seq<Piece>) {
    pieces == [] || (pieces[0].Literal? && (pieces[0].c == '.' || LeadEnds(pieces[1..])))
  }

  /** What follows the leading text starts with a dot, if anything does. */
  lemma {:induction false} FilledLeads(pieces: seq<Piece>, vs: seq<string>) returns (rest: string)
    requires LeadEnds(pieces) && |vs| == |Parameters(pieces)|
    ensures Filled(pieces, vs) == Lead(pieces) + rest && (rest == "" || rest[0] == '.')
  {
    if pieces == [] || pieces[0].c == '.' {
      rest := Filled(pieces, vs);
    } else {
      rest := FilledLeads(pieces[1..], vs);
    }
  }

  /** Two names agree up to their first dot. */
  lemma DotFreeFronts(v: string, w: string, rest: string, other: string)
    requires '.' !in v && '.' !in w && v + rest == w + other
    requires (rest == "" || rest[0] == '.') && (other == "" || other[0] == '.')
    ensures v == w
  {
    var name := v + rest;
    assert |v| < |name| ==> name[|v|] == '.';
    assert |w| < |name| ==> name[|w|] == '.';
    assert forall i :: 0 <= i < |v| ==> name[i] == v[i];
    assert forall i :: 0 <= i < |w| ==> name[i] == w[i];
    assert |v| == |w|;
    assert name[..|v|] == v && name[..|w|] == w;
  }

  lemma SameValueInFront(v: string, w: string, lead: string, rest: string, other: string)
    requires Value(v) && Value(w) && '.' !in lead && v + (lead + rest) == w + (lead + other)
    requires (rest == "" || rest[0] == '.') && (other == "" || other[0] == '.')
    ensures v == w && lead + rest == lead + other
  {
    assert v + (lead + rest) == (v + lead) + rest && w + (lead + other) == (w + lead) + other;
    DotFreeFronts(v + lead, w + lead, rest, other);
    assert (v + lead)[..|v|] == v && (w + lead)[..|w|] == w;
    assert (v + (lead + rest))[|v|..] == lead + rest && (w + (lead + other))[|w|..] == lead + other;
  }

  lemma TailIsOneToASegment(pieces: seq<Piece>)
    requires pieces != [] && OneToASegment(pieces)
    ensures OneToASegment(pieces[1..])
  {
    forall i, j | 0 <= i < j < |pieces[1..]| && pieces[1..][i].Parameter? && pieces[1..][j].Parameter?
      ensures DotBetween(pieces[1..], i, j)
    {
      assert DotBetween(pieces, i + 1, j + 1);
      var k :| i + 1 < k < j + 1 && pieces[k] == Literal('.');
      assert pieces[1..][k - 1] == Literal('.');
    }
  }

  /** Behind a parameter no other comes before a dot. */
  lemma {:induction false} LeadEndsAfter(pieces: seq<Piece>, from: nat)
    requires OneToASegment(pieces) && from < |pieces| && pieces[0].Parameter?
    requires forall k :: 0 < k <= from ==> pieces[k].Literal? && pieces[k].c != '.'
    ensures LeadEnds(pieces[from + 1..])
    decreases |pieces| - from
  {
    if from + 1 < |pieces| {
      assert pieces[from + 1..][1..] == pieces[from + 2..];
      assert pieces[from + 1].Parameter? ==> DotBetween(pieces, 0, from + 1);
      if pieces[from + 1].c != '.' {
        LeadEndsAfter(pieces, from + 1);
      }
    }
  }

  /** With one parameter to a segment, a name leaves no choice of values. */
  lemma {:induction false} SegmentsAreUnique(pieces: seq<Piece>, name: string, vs: seq<string>, ws: seq<string>)
    requires OneToASegment(pieces) && Fits(pieces, name, vs) && Fits(pieces, name, ws)
    ensures vs == ws
    decreases |pieces|
  {
    if pieces != [] {
      var rest := pieces[1..];
      TailIsOneToASegment(pieces);
      match pieces[0]
      case Literal(c) =>
        assert name[1..] == Filled(rest, vs) == Filled(rest, ws);
        SegmentsAreUnique(rest, name[1..], vs, ws);
      case Parameter(_) =>
        LeadEndsAfter(pieces, 0);
        var after := FilledLeads(rest, vs[1..]);
        var other := FilledLeads(rest, ws[1..]);
        SameValueInFront(vs[0], ws[0], Lead(rest), after, other);
        SegmentsAreUnique(rest, Filled(rest, vs[1..]), vs[1..], ws[1..]);
        assert vs == [vs[0]] + vs[1..] && ws == [ws[0]] + ws[1..];
    }
  }

  /** Matching a filled-in pattern returns exactly the values filled in. */
  lemma FilledMatchesItsValues(pieces: seq<Piece>, vs: seq<string>)
    requires OneToASegment(pieces) && |vs| == |Parameters(pieces)| && Values(vs)
    ensures Match(pieces, Filled(pieces, vs)) == Some(vs)
  {
    MatchIsComplete(pieces, Filled(pieces, vs), vs);
    MatchIsSound(pieces, Filled(pieces, vs));
    SegmentsAreUnique(pieces, Filled(pieces, vs), vs, Match(pieces, Filled(pieces, vs)).value);
  }

  // ------------------------------------------------------------------ two parameters to a segment

  lemma {:induction false} ParametersBoth(front: seq<Piece>, back: seq<Piece>)
    ensures Parameters(front + back) == Parameters(front) + Parameters(back)
  {
    if front == [] {
      assert front + back == back;
    } else {
      TailOfBoth(front, back);
      ParametersBoth(front[1..], back);
    }
  }

  lemma {:induction false} FilledBoth(front: seq<Piece>, back: seq<Piece>, vs: seq<string>, ws: seq<string>)
    requires |vs| == |Parameters(front)| && |ws| == |Parameters(back)|
    ensures |Parameters(front + back)| == |vs + ws|
    ensures Filled(front + back, vs + ws) == Filled(front, vs) + Filled(back, ws)
  {
    ParametersBoth(front, back);
    if front == [] {
      assert front + back == back && vs + ws == ws;
    } else {
      if front[0].Literal? {
        FilledBoth(front[1..], back, vs, ws);
        LiteralInFront(front, back, vs, ws);
      } else {
        FilledBoth(front[1..], back, vs[1..], ws);
        ParameterInFront(front, back, vs, ws);
      }
    }
  }

  lemma OnePiece(pieces: seq<Piece>, vs: seq<string>)
    requires pieces != [] && |vs| == |Parameters(pieces)|
    ensures match pieces[0]
            case Literal(c) =>
              |vs| == |Parameters(pieces[1..])| && Filled(pieces, vs) == [c] + Filled(pieces[1..], vs)
            case Parameter(_) =>
              && |vs| == 1 + |Parameters(pieces[1..])|
              && Filled(pieces, vs) == vs[0] + Filled(pieces[1..], vs[1..])
  {}

  lemma Joined(a: string, b: string, c: string)
    ensures a + (b + c) == (a + b) + c
  {}

  lemma TailOfBoth<T>(front: seq<T>, back: seq<T>)
    requires front != []
    ensures (front + back)[0] == front[0] && (front + back)[1..] == front[1..] + back
  {}

  lemma LiteralInFront(front: seq<Piece>, back: seq<Piece>, vs: seq<string>, ws: seq<string>)
    requires front != [] && front[0].Literal? && |vs| == |Parameters(front)| && |ws| == |Parameters(back)|
    requires |Parameters(front[1..] + back)| == |vs + ws| == |Parameters(front + back)|
    requires Filled(front[1..] + back, vs + ws) == Filled(front[1..], vs) + Filled(back, ws)
    ensures Filled(front + back, vs + ws) == Filled(front, vs) + Filled(back, ws)
  {
    TailOfBoth(front, back);
    OnePiece(front, vs);
    OnePiece(front + back, vs + ws);
    Joined([front[0].c], Filled(front[1..], vs), Filled(back, ws));
  }

  lemma ParameterInFront(front: seq<Piece>, back: seq<Piece>, vs: seq<string>, ws: seq<string>)
    requires front != [] && front[0].Parameter? && |vs| == |Parameters(front)| && |ws| == |Parameters(back)|
    requires |Parameters(front[1..] + back)| == |vs[1..] + ws| && |Parameters(front + back)| == |vs + ws|
    requires Filled(front[1..] + back, vs[1..] + ws) == Filled(front[1..], vs[1..]) + Filled(back, ws)
    ensures Filled(front + back, vs + ws) == Filled(front, vs) + Filled(back, ws)
  {
    TailOfBoth(front, back);
    TailOfBoth(vs, ws);
    OnePiece(front, vs);
    OnePiece(front + back, vs + ws);
    Joined(vs[0], Filled(front[1..], vs[1..]), Filled(back, ws));
  }

  lemma FilledAround(front: seq<Piece>, middle: seq<Piece>, back: seq<Piece>,
                     us: seq<string>, vs: seq<string>, ws: seq<string>)
    requires |us| == |Parameters(front)| && |vs| == |Parameters(middle)| && |ws| == |Parameters(back)|
    ensures var all := front + (middle + back);
            && |Parameters(all)| == |us + (vs + ws)|
            && Filled(all, us + (vs + ws)) == Filled(front, us) + (Filled(middle, vs) + Filled(back, ws))
  {
    FilledBoth(middle, back, vs, ws);
    FilledBoth(front, middle + back, us, vs + ws);
  }

  /** A name for everything: each parameter filled with one and the same value. */
  function Alike(pieces: seq<Piece>, v: string): (vs: seq<string>)
    ensures |vs| == |Parameters(pieces)| && forall i :: 0 <= i < |vs| ==> vs[i] == v
  {
    seq(|Parameters(pieces)|, _ => v)
  }

  lemma {:induction false} OnlyLead(literals: seq<Piece>)
    requires forall k :: 0 <= k < |literals| ==> literals[k].Literal? && literals[k].c != '.'
    ensures Parameters(literals) == [] && Filled(literals, []) == Lead(literals)
  {
    if literals != [] {
      OnlyLead(literals[1..]);
    }
  }

  /** Two neighbouring parameters with no dot between them. */
  ghost predicate Neighbours(pieces: seq<Piece>, i: nat, j: nat) {
    && i < j < |pieces| && pieces[i].Parameter? && pieces[j].Parameter?
    && forall k :: i < k < j ==> pieces[k].Literal? && pieces[k].c != '.'
  }

  lemma {:induction false} FindNeighbours(pieces: seq<Piece>, i: nat, j: nat) returns (a: nat, b: nat)
    requires i < j < |pieces| && pieces[i].Parameter? && pieces[j].Parameter? && !DotBetween(pieces, i, j)
    ensures Neighbours(pieces, a, b)
    decreases j - i
  {
    if k :| i < k < j && pieces[k].Parameter? {
      assert !DotBetween(pieces, i, k);
      a, b := FindNeighbours(pieces, i, k);
    } else {
      a, b := i, j;
    }
  }

  lemma AmbiguousAround(front: seq<Piece>, middle: seq<Piece>, back: seq<Piece>, x: string, long: string)
    returns (vs: seq<string>, ws: seq<string>)
    requires |Parameters(middle)| == 2 && Value(x) && Value(long) && x != long
    requires Filled(middle, [x, long]) == Filled(middle, [long, x])
    ensures var all := front + (middle + back);
            && vs != ws && Values(vs) && Values(ws) && |vs| == |ws| == |Parameters(all)|
            && Filled(all, vs) == Filled(all, ws)
  {
    var us, ts := Alike(front, x), Alike(back, x);
    FilledAround(front, middle, back, us, [x, long], ts);
    FilledAround(front, middle, back, us, [long, x], ts);
    vs, ws := us + ([x, long] + ts), us + ([long, x] + ts);
    DifferInside(us, ts, x, long);
  }

  /** The two fills `x`, `x`L`x` and `x`L`x`, `x` of neighbours with the text L between give one name. */
  lemma NeighboursAreAmbiguous(pieces: seq<Piece>, i: nat, j: nat) returns (vs: seq<string>, ws: seq<string>)
    requires Neighbours(pieces, i, j)
    ensures vs != ws && |vs| == |Parameters(pieces)|
    ensures Fits(pieces, Filled(pieces, vs), vs) && Fits(pieces, Filled(pieces, vs), ws)
  {
    var front, between, back := pieces[..i], pieces[i + 1..j], pieces[j + 1..];
    var long := TwoWays(pieces[i], between, pieces[j], "x");
    assert pieces == front + (([pieces[i]] + between + [pieces[j]]) + back);
    vs, ws := AmbiguousAround(front, [pieces[i]] + between + [pieces[j]], back, "x", long);
  }

  lemma DifferInside(us: seq<string>, ts: seq<string>, x: string, long: string)
    requires x != long
    ensures us + ([x, long] + ts) != us + ([long, x] + ts)
  {
    assert (us + ([x, long] + ts))[|us|] == x && (us + ([long, x] + ts))[|us|] == long;
  }

  /** The longer value repeats the shorter one around the text between. */
  lemma TwoWays(first: Piece, between: seq<Piece>, second: Piece, x: string) returns (long: string)
    requires first.Parameter? && second.Parameter? && Value(x)
    requires forall k :: 0 <= k < |between| ==> between[k].Literal? && between[k].c != '.'
    ensures var middle := [first] + between + [second];
            && Value(long) && long != x && |Parameters(middle)| == 2
            && Filled(middle, [x, long]) == Filled(middle, [long, x])
  {
    long := x + Lead(between) + x;
    MiddleFills(first, between, second, x, long);
    MiddleFills(first, between, second, long, x);
    AroundIsAround(x, Lead(between));
  }

  lemma AroundIsAround(x: string, lead: string)
    requires Value(x) && '.' !in lead
    ensures var long := x + lead + x; Value(long) && |x| < |long| && x + lead + long == long + lead + x
  {}

  lemma LastFills(second: Piece, w: string)
    requires second.Parameter?
    ensures Parameters([second]) == [second.key] && Filled([second], [w]) == w
  {
    assert [second][1..] == [] && [w][1..] == [];
    assert Filled([], []) == "" && w + "" == w;
  }

  lemma LeadAndLastFill(between: seq<Piece>, second: Piece, w: string)
    requires second.Parameter? && forall k :: 0 <= k < |between| ==> between[k].Literal? && between[k].c != '.'
    ensures |Parameters(between + [second])| == 1 && Filled(between + [second], [w]) == Lead(between) + w
  {
    OnlyLead(between);
    LastFills(second, w);
    FilledBoth(between, [second], [], [w]);
    assert [] + [w] == [w];
  }

  lemma MiddleFills(first: Piece, between: seq<Piece>, second: Piece, v: string, w: string)
    requires first.Parameter? && second.Parameter?
    requires forall k :: 0 <= k < |between| ==> between[k].Literal? && between[k].c != '.'
    ensures var middle := [first] + between + [second];
            |Parameters(middle)| == 2 && Filled(middle, [v, w]) == v + Lead(between) + w
  {
    LeadAndLastFill(between, second, w);
    var middle := [first] + between + [second];
    assert middle[0] == first && middle[1..] == between + [second];
    assert |Parameters(middle)| == 1 + |Parameters(middle[1..])|;
    OnePiece(middle, [v, w]);
    assert [v, w][1..] == [w];
    Joined(v, Lead(between), w);
  }

  /** Whatever fits a pattern is found again when the name is matched. */
  ghost predicate FillsMatchBack(pieces: seq<Piece>) {
    forall vs :: |vs| == |Parameters(pieces)| && Values(vs) ==> Match(pieces, Filled(pieces, vs)) == Some(vs)
  }

  /** Every fill of a pattern is matched back exactly when no segment holds two parameters. */
  lemma FillsMatchBackExactlyWhen(pieces: seq<Piece>)
    ensures FillsMatchBack(pieces) <==> OneToASegment(pieces)
  {
    if OneToASegment(pieces) {
      forall vs | |vs| == |Parameters(pieces)| && Values(vs) ensures Match(pieces, Filled(pieces, vs)) == Some(vs) {
        FilledMatchesItsValues(pieces, vs);
      }
    } else {
      var i, j :| 0 <= i < j < |pieces| && pieces[i].Parameter? && pieces[j].Parameter? && !DotBetween(pieces, i, j);
      var a, b := FindNeighbours(pieces, i, j);
      var vs, ws := NeighboursAreAmbiguous(pieces, a, b);
      var found := Match(pieces, Filled(pieces, vs));
      assert found != Some(vs) || found != Some(ws);
    }
  }

  // ------------------------------------------------------------------ the registry

  type Authorizer = nat

  /** One declared pattern; a map keeps them in the order they were first declared. */
  datatype Entry = Entry(pattern: string, authorizer: Authorizer)

  predicate Declared(entries: seq<Entry>, pattern: string) {
    exists i :: 0 <= i < |entries| && entries[i].pattern == pattern
  }

  predicate DistinctPatterns(entries: seq<Entry>) {
    forall i, j :: 0 <= i < j < |entries| ==> entries[i].pattern != entries[j].pattern
  }

  /** `Map.set`: a known pattern keeps its place, a new one goes last. */
  function Set(entries: seq<Entry>, pattern: string, authorizer: Authorizer): seq<Entry> {
    if entries == [] then [Entry(pattern, authorizer)]
    else if entries[0].pattern == pattern then [Entry(pattern, authorizer)] + entries[1..]
    else [entries[0]] + Set(entries[1..], pattern, authorizer)
  }

  /** The first pattern that matches, with the values it found. */
  function First(entries: seq<Entry>, name: string): Option<(Entry, seq<string>)> {
    if entries == [] then None
    else
      var values := Match(Pieces(entries[0].pattern), name);
      if values.Some? then Some((entries[0], values.value)) else First(entries[1..], name)
  }

  lemma DeclaredInTail(entries: seq<Entry>, pattern: string)
    requires entries != []
    ensures Declared(entries, pattern) <==> entries[0].pattern == pattern || Declared(entries[1..], pattern)
  {
    var rest := entries[1..];
    assert forall i :: 0 < i < |entries| ==> entries[i] == rest[i - 1];
    if Declared(rest, pattern) {
      var i :| 0 <= i < |rest| && rest[i].pattern == pattern;
      assert entries[i + 1].pattern == pattern;
    }
  }

  /** The pattern now goes with the authorizer, at its old place or last, and every other entry stays where it was. */
  ghost predicate IsSet(entries: seq<Entry>, out: seq<Entry>, pattern: string, authorizer: Authorizer) {
    && |out| == |entries| + (if Declared(entries, pattern) then 0 else 1)
    && Entry(pattern, authorizer) in out
    && (forall i :: 0 <= i < |entries| ==> out[i].pattern == entries[i].pattern)
    && (forall i :: 0 <= i < |entries| && entries[i].pattern != pattern ==> out[i] == entries[i])
  }

  lemma IsSetInTail(entries: seq<Entry>, more: seq<Entry>, pattern: string, authorizer: Authorizer)
    requires entries != [] && entries[0].pattern != pattern && IsSet(entries[1..], more, pattern, authorizer)
    ensures IsSet(entries, [entries[0]] + more, pattern, authorizer)
  {
    DeclaredInTail(entries, pattern);
    var out, rest := [entries[0]] + more, entries[1..];
    var k :| 0 <= k < |more| && more[k] == Entry(pattern, authorizer);
    assert out[k + 1] == more[k];
    assert forall i :: 0 < i < |entries| ==> entries[i] == rest[i - 1] && out[i] == more[i - 1];
  }

  lemma {:induction false} SetKeepsPlaces(entries: seq<Entry>, pattern: string, authorizer: Authorizer)
    ensures IsSet(entries, Set(entries, pattern, authorizer), pattern, authorizer)
  {
    if entries != [] {
      DeclaredInTail(entries, pattern);
      if entries[0].pattern != pattern {
        SetKeepsPlaces(entries[1..], pattern, authorizer);
        IsSetInTail(entries, Set(entries[1..], pattern, authorizer), pattern, authorizer);
      }
    }
  }

  /** The first match is a declared pattern, and no pattern above it matches. */
  lemma {:induction false} FirstDecides(entries: seq<Entry>, name: string)
    ensures First(entries, name).None?
            <==> forall i :: 0 <= i < |entries| ==> Match(Pieces(entries[i].pattern), name).None?
    ensures First(entries, name).Some? ==>
              exists i :: 0 <= i < |entries| && entries[i] == First(entries, name).value.0
                          && Match(Pieces(entries[i].pattern), name) == Some(First(entries, name).value.1)
                          && forall k :: 0 <= k < i ==> Match(Pieces(entries[k].pattern), name).None?
  {
    if entries != [] && Match(Pieces(entries[0].pattern), name).None? {
      FirstDecides(entries[1..], name);
      assert forall i :: 0 < i < |entries| ==> entries[i] == entries[1..][i - 1];
      if First(entries, name).Some? {
        var k :| 0 <= k < |entries[1..]| && entries[1..][k] == First(entries, name).value.0
                 && Match(Pieces(entries[1..][k].pattern), name) == Some(First(entries, name).value.1)
                 && forall j :: 0 <= j < k ==> Match(Pieces(entries[1..][j].pattern), name).None?;
        assert entries[k + 1] == First(entries, name).value.0;
        assert forall j :: 0 < j < k + 1 ==> entries[j] == entries[1..][j - 1];
      }
    }
  }

  /** A pattern declared later takes no name from the ones above it. */
  lemma {:induction false} LaterTakesNothing(entries: seq<Entry>, more: seq<Entry>, name: string)
    requires First(entries, name).Some?
    ensures First(entries + more, name) == First(entries, name)
  {
    assert (entries + more)[1..] == entries[1..] + more;
    if Match(Pieces(entries[0].pattern), name).None? {
      LaterTakesNothing(entries[1..], more, name);
    }
  }

  class ChannelRegistry {
    var channels: seq<Entry>
    var presenceChannels: seq<Entry>

    /** Each pattern once, and every presence pattern is a channel as well. */
    ghost predicate Valid()
      reads this
    {
      && DistinctPatterns(channels) && DistinctPatterns(presenceChannels)
      && forall i :: 0 <= i < |presenceChannels| ==> Declared(channels, presenceChannels[i].pattern)
    }

    constructor ()
      ensures Valid() && channels == [] && presenceChannels == []
    {
      channels, presenceChannels := [], [];
    }

    method Channel(pattern: string, authorizer: Authorizer)
      requires Valid()
      modifies this`channels
      ensures Valid() && channels == Set(old(channels), pattern, authorizer)
    {
      SetKeepsPlaces(channels, pattern, authorizer);
      ghost var was := channels;
      channels := Set(channels, pattern, authorizer);
      forall p | Declared(was, p) ensures Declared(channels, p) {
        var i :| 0 <= i < |was| && was[i].pattern == p;
        assert channels[i].pattern == p;
      }
      NewIsDistinct(was, channels, pattern);
    }

    method Presence(pattern: string, authorizer: Authorizer)
      requires Valid()
      modifies this
      ensures Valid() && channels == Set(old(channels), pattern, authorizer)
      ensures presenceChannels == Set(old(presenceChannels), pattern, authorizer)
    {
      ghost var was := presenceChannels;
      Channel(pattern, authorizer);
      SetKeepsPlaces(old(channels), pattern, authorizer);
      SetKeepsPlaces(was, pattern, authorizer);
      presenceChannels := Set(presenceChannels, pattern, authorizer);
      NewIsDistinct(was, presenceChannels, pattern);
      forall i | 0 <= i < |presenceChannels| ensures Declared(channels, presenceChannels[i].pattern) {
        if i < |was| {
          assert Declared(channels, was[i].pattern);
        }
      }
    }

    /** The loop both lookups run: patterns in declaration order, the first match wins. */
    static method Scan(entries: seq<Entry>, name: string) returns (matched: Option<(Entry, seq<string>)>)
      ensures matched == First(entries, name)
    {
      for n := 0 to |entries|
        invariant First(entries, name) == First(entries[n..], name)
      {
        assert entries[n..][0] == entries[n] && entries[n..][1..] == entries[n + 1..];
        var values := Match(Pieces(entries[n].pattern), name);
        if values.Some? {
          return Some((entries[n], values.value));
        }
      }
      matched := None;
    }

    /** Whoever joins a presence channel also passes some channel's authorizer: the name matches there too. */
    method PresenceFor(name: string) returns (matched: Option<(Entry, seq<string>)>)
      requires Valid()
      ensures matched == First(presenceChannels, name)
      ensures matched.Some? ==> First(channels, name).Some?
    {
      matched := Scan(presenceChannels, name);
      FirstDecides(presenceChannels, name);
      FirstDecides(channels, name);
      if matched.Some? {
        var i :| 0 <= i < |presenceChannels| && presenceChannels[i] == matched.value.0;
        var k :| 0 <= k < |channels| && channels[k].pattern == presenceChannels[i].pattern;
      }
    }
  }

  lemma NewIsDistinct(was: seq<Entry>, now: seq<Entry>, pattern: string)
    requires DistinctPatterns(was) && |was| <= |now| && forall i :: 0 <= i < |was| ==> now[i].pattern == was[i].pattern
    requires |now| == |was| + if Declared(was, pattern) then 0 else 1
    requires !Declared(was, pattern) ==> now[|was|].pattern == pattern
    ensures DistinctPatterns(now)
  {
    forall i, j | 0 <= i < j < |now| ensures now[i].pattern != now[j].pattern {
      assert i < |was| && now[i].pattern == was[i].pattern;
    }
  }
}
