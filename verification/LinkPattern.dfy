/** A route with holes in it: the parser that finds them, and the printer that it undoes and that undoes it. */
module LinkPattern {
  /** What one field of a link may hold; a number comes with the text it is written as. */
  datatype LinkValue = Text(text: string) | Number(text: string) | Flag(on: bool)

  type Data = map<string, LinkValue>

  datatype Segment = Literal(value: string) | Param(name: string)

  datatype TemplateError = IsEmpty | WritesTwice(name: string)

  // ------------------------------------------------------------ placeholders

  predicate IsLetter(c: char)
  {
    'A' <= c <= 'Z' || 'a' <= c <= 'z'
  }

  predicate IsNameChar(c: char)
  {
    IsLetter(c) || '0' <= c <= '9' || c == '_'
  }

  /** How many name characters `s` starts with. */
  function NameRun(s: string): (n: nat)
    ensures n <= |s|
  {
    if s == "" || !IsNameChar(s[0]) then 0 else 1 + NameRun(s[1..])
  }

  /** How long a placeholder `s` starts with, zero when it starts with none. */
  function Placeholder(s: string): (n: nat)
    ensures n <= |s| && (n > 0 ==> n >= 3)
  {
    if |s| < 3 || s[0] != '{' || !IsLetter(s[1]) then 0
    else
      var n := NameRun(s[1..]);
      if n + 1 < |s| && s[n + 1] == '}' then n + 2 else 0
  }

  /** Where the first placeholder of `s` starts, its length when it holds none. */
  function NextMatch(s: string): (n: nat)
    ensures n <= |s|
  {
    if s == "" || Placeholder(s) > 0 then 0 else 1 + NextMatch(s[1..])
  }

  lemma {:induction false} NextMatchFinds(s: string)
    ensures NextMatch(s) < |s| ==> Placeholder(s[NextMatch(s)..]) > 0
  {
    if s != "" && Placeholder(s) == 0 {
      NextMatchFinds(s[1..]);
      assert s[NextMatch(s)..] == s[1..][NextMatch(s[1..])..];
    } else {
      assert s[0..] == s;
    }
  }

  predicate IsName(s: string)
  {
    s != "" && IsLetter(s[0]) && NameRun(s) == |s|
  }

  // ------------------------------------------------------------------- parts

  /** The text before a placeholder, which is no part when it is empty. */
  function Lead(text: string): seq<Segment>
  {
    if text == "" then [] else [Literal(text)]
  }

  /** Where a template first names a parameter, if it does: the text before, the name, and what is left. */
  datatype Cut = Whole | At(text: string, name: string, rest: string)

  function FirstCut(s: string): (c: Cut)
    ensures c.At? ==> |c.rest| < |s|
  {
    var at := NextMatch(s);
    if at == |s| then Whole
    else
      NextMatchFinds(s);
      var n := Placeholder(s[at..]);
      At(s[..at], s[at..][1..n - 1], s[at..][n..])
  }

  /** What a template is made of: each placeholder, and the text between them. */
  function Segments(s: string): seq<Segment>
    decreases |s|
  {
    match FirstCut(s)
    case Whole => Lead(s)
    case At(text, name, rest) => Lead(text) + ([Param(name)] + Segments(rest))
  }

  function PrintOne(segment: Segment): string
  {
    match segment
    case Literal(value) => value
    case Param(name) => "{" + name + "}"
  }

  /** The pattern that spells `segments`. */
  function Print(segments: seq<Segment>): string
  {
    if segments == [] then "" else PrintOne(segments[0]) + Print(segments[1..])
  }

  function NamesOf(segments: seq<Segment>): seq<string>
  {
    if segments == [] then []
    else (if segments[0].Param? then [segments[0].name] else []) + NamesOf(segments[1..])
  }

  predicate Distinct(names: seq<string>)
  {
    forall i, j | 0 <= i < j < |names| :: names[i] != names[j]
  }

  /** What segments a parser answers: literals not empty, holding no placeholder and never side by side. */
  predicate WellFormed(segments: seq<Segment>)
  {
    segments == [] ||
    (SegmentOk(segments[0]) && WellFormed(segments[1..])
     && (|segments| > 1 ==> segments[0].Param? || segments[1].Param?))
  }

  predicate SegmentOk(segment: Segment)
  {
    match segment
    case Literal(value) => value != "" && NextMatch(value) == |value|
    case Param(name) => IsName(name)
  }

  // -------------------------------------------------------------- round trip

  lemma {:induction false} NameRunOf(name: string, rest: string)
    requires NameRun(name) == |name| && (rest == "" || !IsNameChar(rest[0]))
    ensures NameRun(name + rest) == |name|
  {
    if name != "" {
      assert (name + rest)[1..] == name[1..] + rest;
      NameRunOf(name[1..], rest);
    } else {
      assert name + rest == rest;
    }
  }

  lemma {:induction false} NameRunTakes(s: string)
    ensures NameRun(s[..NameRun(s)]) == NameRun(s)
  {
    if s != "" && IsNameChar(s[0]) {
      NameRunTakes(s[1..]);
      assert s[..NameRun(s)][1..] == s[1..][..NameRun(s[1..])];
    }
  }

  /** A printed parameter is a placeholder, whatever follows it. */
  lemma PrintedParam(name: string, rest: string)
    requires IsName(name)
    ensures Placeholder("{" + name + "}" + rest) == |name| + 2
  {
    var s := "{" + name + "}" + rest;
    assert s[1..] == name + ("}" + rest);
    NameRunOf(name, "}" + rest);
  }

  /** What a placeholder names. */
  lemma PlaceholderNames(s: string)
    requires Placeholder(s) > 0
    ensures var n := Placeholder(s); IsName(s[1..n - 1]) && s[..n] == "{" + s[1..n - 1] + "}"
  {
    var n := Placeholder(s);
    NameRunTakes(s[1..]);
    assert s[1..][..n - 2] == s[1..n - 1];
    assert s[1..n - 1][0] == s[1];
  }

  /** A text with no placeholder of its own makes none with a placeholder, or the end, after it. */
  lemma {:induction false} NoneAcross(value: string, rest: string)
    requires NextMatch(value) == |value| && (rest == "" || Placeholder(rest) > 0)
    ensures NextMatch(value + rest) == |value|
  {
    if value == "" {
      assert value + rest == rest;
    } else {
      assert (value + rest)[1..] == value[1..] + rest;
      NoneAcross(value[1..], rest);
      MatchIsInside(value, rest);
    }
  }

  /** A placeholder that starts in a text ends in it, when a brace or the end follows. */
  lemma MatchIsInside(value: string, rest: string)
    requires value != "" && (rest == "" || rest[0] == '{')
    ensures Placeholder(value + rest) > 0 ==> Placeholder(value) > 0
  {
    var s := value + rest;
    if rest == "" {
      assert s == value;
    } else {
      RunStopsAt(value[1..], rest);
      assert s[1..] == value[1..] + rest;
    }
  }

  /** A run of name characters does not go past a brace. */
  lemma {:induction false} RunStopsAt(value: string, rest: string)
    requires rest != "" && rest[0] == '{'
    ensures NameRun(value + rest) == NameRun(value)
  {
    if value == "" {
      assert value + rest == rest;
    } else {
      assert (value + rest)[1..] == value[1..] + rest;
      RunStopsAt(value[1..], rest);
    }
  }

  lemma {:induction false} NoneBefore(s: string)
    ensures NextMatch(s[..NextMatch(s)]) == NextMatch(s)
  {
    var n := NextMatch(s);
    if n > 0 {
      NoneBefore(s[1..]);
      assert s[..n][1..] == s[1..][..n - 1];
      CutMakesNone(s, n);
    }
  }

  /** Cutting a text short makes no placeholder. */
  lemma CutMakesNone(s: string, n: nat)
    requires n <= |s|
    ensures Placeholder(s[..n]) > 0 ==> Placeholder(s) > 0
  {
    var t := s[..n];
    if Placeholder(t) > 0 {
      PlaceholderNames(t);
      var k := Placeholder(t);
      var name, rest := t[1..k - 1], s[k..];
      assert s == "{" + name + "}" + rest;
      PrintedParam(name, rest);
    }
  }

  lemma PlaceholderSpells(s: string)
    requires Placeholder(s) > 0
    ensures var n := Placeholder(s); IsName(s[1..n - 1]) && s == "{" + s[1..n - 1] + "}" + s[n..]
  {
    PlaceholderNames(s);
    assert s == s[..Placeholder(s)] + s[Placeholder(s)..];
  }

  lemma CutIsOf(s: string, text: string, tail: string)
    requires NextMatch(s) == |text| && s == text + tail && Placeholder(tail) > 0
    ensures FirstCut(s) == At(text, tail[1..Placeholder(tail) - 1], tail[Placeholder(tail)..])
  {
    assert s[|text|..] == tail && s[..|text|] == text;
  }

  predicate Spells(s: string, text: string, name: string, rest: string)
  {
    s == text + ("{" + name + "}" + rest) && IsName(name) && NextMatch(text) == |text|
  }

  lemma CutAt(s: string) returns (text: string, tail: string)
    requires NextMatch(s) < |s|
    ensures s == text + tail && NextMatch(text) == |text| && Placeholder(tail) > 0
    ensures FirstCut(s) == At(text, tail[1..Placeholder(tail) - 1], tail[Placeholder(tail)..])
  {
    text, tail := s[..NextMatch(s)], s[NextMatch(s)..];
    NextMatchFinds(s);
    CutIsOf(s, text, tail);
    NoneBefore(s);
  }

  /** What the first cut of a template spells. */
  lemma CutSpells(s: string, c: Cut)
    requires c == FirstCut(s)
    ensures if c.Whole? then NextMatch(s) == |s| else Spells(s, c.text, c.name, c.rest)
  {
    if NextMatch(s) < |s| {
      var text, tail := CutAt(s);
      PlaceholderSpells(tail);
      SpellsJoin(s, text, tail);
    }
  }

  lemma SpellsJoin(s: string, text: string, tail: string)
    requires s == text + tail && NextMatch(text) == |text| && Placeholder(tail) > 0
    requires var n := Placeholder(tail); IsName(tail[1..n - 1]) && tail == "{" + tail[1..n - 1] + "}" + tail[n..]
    ensures var n := Placeholder(tail); Spells(s, text, tail[1..n - 1], tail[n..])
  {
  }

  /** Where the first cut of a spelled template falls. */
  lemma CutIs(text: string, name: string, rest: string)
    requires IsName(name) && NextMatch(text + ("{" + name + "}" + rest)) == |text|
    ensures FirstCut(text + ("{" + name + "}" + rest)) == At(text, name, rest)
  {
    var tail := "{" + name + "}" + rest;
    PrintedParam(name, rest);
    ParamSlices(tail, name, rest);
    CutIsOf(text + tail, text, tail);
  }

  lemma ParamSlices(tail: string, name: string, rest: string)
    requires tail == "{" + name + "}" + rest
    ensures tail[1..|name| + 1] == name && tail[|name| + 2..] == rest
  {
  }

  lemma PrintFirst(text: string, segments: seq<Segment>)
    ensures Print(Lead(text) + segments) == text + Print(segments)
  {
    if text == "" {
      assert [] + segments == segments;
    } else {
      assert ([Literal(text)] + segments)[1..] == segments;
    }
  }

  /** Printing what was parsed gives the pattern back. */
  lemma {:induction false} PrintUndoesParse(s: string)
    ensures Print(Segments(s)) == s
    decreases |s|
  {
    CutSpells(s, FirstCut(s));
    match FirstCut(s)
    case Whole => PrintFirst(s, []);
    case At(text, name, rest) =>
      PrintUndoesParse(rest);
      PrintFirst(text, [Param(name)] + Segments(rest));
      assert ([Param(name)] + Segments(rest))[1..] == Segments(rest);
  }

  lemma LeadIsWellFormed(text: string, name: string, rest: seq<Segment>)
    requires NextMatch(text) == |text| && IsName(name) && WellFormed(rest)
    ensures WellFormed(Lead(text) + ([Param(name)] + rest))
  {
    var tail := [Param(name)] + rest;
    assert tail[1..] == rest;
    if text == "" {
      assert Lead(text) + tail == tail;
    } else {
      assert (Lead(text) + tail)[1..] == tail;
    }
  }

  /** What the parser answers is well formed. */
  lemma {:induction false} ParseIsWellFormed(s: string)
    ensures WellFormed(Segments(s))
    decreases |s|
  {
    CutSpells(s, FirstCut(s));
    match FirstCut(s)
    case Whole => assert Lead(s) != [] ==> Lead(s)[1..] == [];
    case At(text, name, rest) =>
      ParseIsWellFormed(rest);
      LeadIsWellFormed(text, name, Segments(rest));
  }

  /** A text, then a parameter: the parser takes both off, and goes on with what follows. */
  lemma TakesParam(text: string, name: string, rest: string)
    requires NextMatch(text) == |text| && IsName(name)
    ensures Segments(text + ("{" + name + "}" + rest)) == Lead(text) + ([Param(name)] + Segments(rest))
  {
    PrintedParam(name, rest);
    NoneAcross(text, "{" + name + "}" + rest);
    CutIs(text, name, rest);
  }

  /** Parsing what well-formed segments print gives the same segments back. */
  lemma {:induction false} ParseUndoesPrint(segments: seq<Segment>)
    requires WellFormed(segments)
    ensures Segments(Print(segments)) == segments
  {
    if segments != [] {
      var first, rest := segments[0], segments[1..];
      assert segments == [first] + rest;
      if first.Param? {
        ParseUndoesPrint(rest);
        TakesParam("", first.name, Print(rest));
        assert "" + ("{" + first.name + "}" + Print(rest)) == Print(segments);
      } else if rest == [] {
        assert first.value + "" == first.value;
      } else {
        var name, others := rest[0].name, rest[1..];
        assert rest == [Param(name)] + others;
        ParseUndoesPrint(others);
        TakesParam(first.value, name, Print(others));
      }
    }
  }
}
