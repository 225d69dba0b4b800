/** A template at work: taken apart by a loop, declared, and filled by a loop from the data it accepts. */
module LinkRender {
  import opened Results
  import opened LinkEscape
  import opened LinkPattern

  // ---------------------------------------------------------------- rendering

  /** A value as text, or nothing when it is missing or empty. */
  function TextOf(data: Data, name: string): Option<string>
  {
    if name !in data then None
    else
      var text := match data[name]
                  case Text(text) => text
                  case Number(text) => text
                  case Flag(on) => if on then "true" else "false";
      if text == "" then None else Some(text)
  }

  /** What one part writes. */
  function RenderOne(segment: Segment, data: Data): Option<string>
  {
    match segment
    case Literal(value) => Some(value)
    case Param(name) =>
      (match TextOf(data, name) case None => None case Some(text) => Some(Encode(text)))
  }

  /** What the parts write one after the other, unless one of them has no value. */
  function Render(segments: seq<Segment>, data: Data): Option<string>
  {
    if segments == [] then Some("")
    else
      match (RenderOne(segments[0], data), Render(segments[1..], data))
      case (Some(first), Some(rest)) => Some(first + rest)
      case _ => None
  }

  predicate Accepts(names: seq<string>, data: Data)
  {
    forall name <- names :: TextOf(data, name).Some?
  }

  /** A template accepts exactly the data it can render. */
  lemma {:induction false} AcceptsWhatItRenders(segments: seq<Segment>, data: Data)
    ensures Accepts(NamesOf(segments), data) <==> Render(segments, data).Some?
  {
    if segments != [] {
      AcceptsWhatItRenders(segments[1..], data);
      var rest := NamesOf(segments[1..]);
      if segments[0].Param? {
        var name := segments[0].name;
        assert NamesOf(segments) == [name] + rest;
        assert name in NamesOf(segments);
        assert forall n <- rest :: n in NamesOf(segments);
      } else {
        assert NamesOf(segments) == rest;
      }
    }
  }

  /** A text and a number are written as they are, a flag by its name; what is missing or empty is written as nothing. */
  lemma ValuesAreWrittenAsTheyAre(data: Data, name: string, value: LinkValue)
    requires name in data ==> data[name] == value
    ensures TextOf(data, name) == None <==> name !in data || value == Text("") || value == Number("")
    ensures name in data && value.Text? && value.text != "" ==> TextOf(data, name) == Some(value.text)
    ensures name in data && value.Number? && value.text != "" ==> TextOf(data, name) == Some(value.text)
    ensures name in data && value.Flag? ==> TextOf(data, name) == Some(if value.on then "true" else "false")
  {
  }

  /** The parts of a template with each placeholder turned into what is written in its place. */
  function FilledIn(segments: seq<Segment>, data: Data): seq<Segment>
    requires Accepts(NamesOf(segments), data)
  {
    if segments == [] then []
    else
      NamesOfFirst(segments);
      [if segments[0].Param? then Literal(Encode(TextOf(data, segments[0].name).value)) else segments[0]]
      + FilledIn(segments[1..], data)
  }

  lemma NamesOfFirst(segments: seq<Segment>)
    requires segments != []
    ensures segments[0].Param? ==> segments[0].name in NamesOf(segments)
    ensures forall n <- NamesOf(segments[1..]) :: n in NamesOf(segments)
  {
  }

  /** A link is its pattern with each placeholder spelled as the escaped value of its field, and nothing else changed. */
  lemma {:induction false} LinkIsThePatternFilledIn(segments: seq<Segment>, data: Data)
    requires Accepts(NamesOf(segments), data)
    ensures Render(segments, data) == Some(Print(FilledIn(segments, data)))
  {
    if segments != [] {
      NamesOfFirst(segments);
      LinkIsThePatternFilledIn(segments[1..], data);
      assert FilledIn(segments, data)[1..] == FilledIn(segments[1..], data);
    }
  }

  // ----------------------------------------------------------------- objects

  lemma {:induction false} NamesOfAppend(first: seq<Segment>, second: seq<Segment>)
    ensures NamesOf(first + second) == NamesOf(first) + NamesOf(second)
  {
    if first == [] {
      assert first + second == second;
    } else {
      assert (first + second)[1..] == first[1..] + second;
      NamesOfAppend(first[1..], second);
    }
  }

  lemma {:induction false} RenderAppend(first: seq<Segment>, second: seq<Segment>, data: Data)
    ensures Render(first + second, data).Some? <==> Render(first, data).Some? && Render(second, data).Some?
    ensures Render(first + second, data).Some? ==>
              Render(first + second, data).value == Render(first, data).value + Render(second, data).value
  {
    if first == [] {
      assert first + second == second;
    } else {
      assert (first + second)[1..] == first[1..] + second;
      RenderAppend(first[1..], second, data);
    }
  }

  lemma RenderSingle(segment: Segment, data: Data)
    ensures Render([segment], data) == RenderOne(segment, data)
  {
    assert [segment][1..] == [];
    assert RenderOne(segment, data).Some? ==> RenderOne(segment, data).value + "" == RenderOne(segment, data).value;
  }

  lemma RenderStops(segments: seq<Segment>, i: nat, data: Data)
    requires i < |segments| && RenderOne(segments[i], data).None?
    ensures Render(segments, data).None?
  {
    var rest := segments[i..];
    assert segments == segments[..i] + rest && rest == [segments[i]] + rest[1..];
    RenderAppend(segments[..i], rest, data);
  }

  lemma Regrouped(a: seq<Segment>, b: seq<Segment>, c: seq<Segment>, d: seq<Segment>)
    ensures a + (b + (c + d)) == a + (b + c) + d
  {
  }

  /** What one turn of the parser adds: the text before a placeholder, the placeholder, and its name. */
  lemma OneMoreParam(segments: seq<Segment>, text: string, name: string, rest: seq<Segment>)
    ensures var more := Lead(text) + [Param(name)];
            && segments + (Lead(text) + ([Param(name)] + rest)) == segments + more + rest
            && NamesOf(segments + more) == NamesOf(segments) + [name]
            && NamesOf(segments + more + rest) == NamesOf(segments) + [name] + NamesOf(rest)
  {
    var more := Lead(text) + [Param(name)];
    Regrouped(segments, Lead(text), [Param(name)], rest);
    NamesOfAppend(segments, more);
    NamesOfAppend(Lead(text), [Param(name)]);
    NamesOfAppend(segments + more, rest);
  }

  lemma RepeatsAName(names: seq<string>, name: string, rest: seq<string>)
    requires name in names
    ensures !Distinct(names + [name] + rest)
  {
    var i :| 0 <= i < |names| && names[i] == name;
    var all := names + [name] + rest;
    assert all[i] == all[|names|];
  }

  /** One declared template: its pattern, and the parts the constructor took it apart into. */
  class LinkTemplate {
    const pattern: string
    const names: seq<string>
    const segments: seq<Segment>

    constructor (pattern: string, names: seq<string>, segments: seq<Segment>)
      ensures this.pattern == pattern && this.names == names && this.segments == segments
    {
      this.pattern := pattern;
      this.names := names;
      this.segments := segments;
    }

    ghost predicate Valid()
    {
      && segments == Segments(pattern) && names == NamesOf(segments) && Distinct(names)
      && pattern != ""
    }

    /** The template with `data` written into it, or nothing when a placeholder has no value. */
    method Write(data: Data) returns (r: Option<string>)
      ensures r == Render(segments, data)
    {
      var parts := "";
      assert segments[..0] == [];
      for i := 0 to |segments|
        invariant Render(segments[..i], data) == Some(parts)
      {
        assert segments[..i + 1] == segments[..i] + [segments[i]];
        RenderAppend(segments[..i], [segments[i]], data);
        RenderSingle(segments[i], data);
        var part := RenderOne(segments[i], data);
        if part.None? {
          RenderStops(segments, i, data);
          return None;
        }
        parts := parts + part.value;
      }
      assert segments[..|segments|] == segments;
      r := Some(parts);
    }
  }

  /** Finds the first placeholder of what is left of a pattern. */
  method NextPlaceholder(rest: string) returns (cut: Cut)
    ensures cut.Whole? ==> Segments(rest) == Lead(rest)
    ensures cut.At? ==> |cut.rest| < |rest|
                        && Segments(rest) == Lead(cut.text) + ([Param(cut.name)] + Segments(cut.rest))
  {
    cut := FirstCut(rest);
  }

  /** Where the parser stands: what it took, and what the next cut leaves of `all`. */
  ghost predicate Taken(all: seq<Segment>, segments: seq<Segment>, names: seq<string>, cut: Cut, rest: string)
  {
    && names == NamesOf(segments) && Distinct(names)
    && all == segments + if cut.Whole? then Lead(rest) else Lead(cut.text) + ([Param(cut.name)] + Segments(cut.rest))
  }

  lemma TakesOne(all: seq<Segment>, segments: seq<Segment>, names: seq<string>, cut: Cut, rest: string, next: Cut)
    requires Taken(all, segments, names, cut, rest) && cut.At?
    requires Segments(cut.rest) == if next.Whole? then Lead(cut.rest)
                                   else Lead(next.text) + ([Param(next.name)] + Segments(next.rest))
    ensures cut.name in names ==> cut.name in NamesOf(all) && !Distinct(NamesOf(all))
    ensures cut.name !in names ==>
              Taken(all, segments + (Lead(cut.text) + [Param(cut.name)]), names + [cut.name], next, cut.rest)
  {
    OneMoreParam(segments, cut.text, cut.name, Segments(cut.rest));
    if cut.name in names {
      RepeatsAName(names, cut.name, NamesOf(Segments(cut.rest)));
    }
  }

  lemma TakesNothing(pattern: string, cut: Cut)
    requires Segments(pattern) == if cut.Whole? then Lead(pattern) else Lead(cut.text) + ([Param(cut.name)] + Segments(cut.rest))
    ensures Taken(Segments(pattern), [], [], cut, pattern)
  {
    assert [] + Segments(pattern) == Segments(pattern);
  }

  lemma TakesTheRest(all: seq<Segment>, segments: seq<Segment>, names: seq<string>, cut: Cut, rest: string)
    requires Taken(all, segments, names, cut, rest) && cut.Whole?
    ensures all == segments + Lead(rest) && names == NamesOf(all)
  {
    NamesOfAppend(segments, Lead(rest));
  }

  /** Takes a pattern apart, one placeholder after the other, up to a name it writes twice. */
  method TakeApart(pattern: string) returns (segments: seq<Segment>, names: seq<string>, twice: Option<string>)
    ensures twice.None? ==> segments == Segments(pattern) && names == NamesOf(segments) && Distinct(names)
    ensures twice.Some? ==> twice.value in NamesOf(Segments(pattern)) && !Distinct(NamesOf(Segments(pattern)))
  {
    var rest: string := pattern;
    segments, names := [], [];
    var cut := NextPlaceholder(rest);
    ghost var all := Segments(pattern);
    TakesNothing(pattern, cut);
    while cut.At?
      invariant Taken(all, segments, names, cut, rest) && (cut.At? ==> |cut.rest| < |rest|)
      decreases |rest|
    {
      var next := NextPlaceholder(cut.rest);
      TakesOne(all, segments, names, cut, rest, next);
      if cut.name in names {
        return segments, names, Some(cut.name);
      }
      segments := segments + (Lead(cut.text) + [Param(cut.name)]);
      names := names + [cut.name];
      rest, cut := cut.rest, next;
    }
    TakesTheRest(all, segments, names, cut, rest);
    segments := segments + Lead(rest);
    twice := None;
  }

  /** Declares a template, or says why the pattern is none. */
  method Declare(pattern: string) returns (r: Result<LinkTemplate, TemplateError>)
    ensures r.Success? ==> r.value.pattern == pattern && r.value.Valid()
    ensures r.Success? <==> pattern != "" && Distinct(NamesOf(Segments(pattern)))
    ensures r.Failure? ==> (r.error.IsEmpty? <==> pattern == "")
    ensures r.Failure? && r.error.WritesTwice? ==> r.error.name in NamesOf(Segments(pattern))
  {
    if pattern == "" {
      return Failure(IsEmpty);
    }
    var segments, names, twice := TakeApart(pattern);
    if twice.Some? {
      return Failure(WritesTwice(twice.value));
    }
    var template := new LinkTemplate(pattern, names, segments);
    r := Success(template);
  }
}
