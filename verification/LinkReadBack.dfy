/** What a rendered link says of the values it was rendered with. */
module LinkReadBack {
  import opened Results
  import opened LinkEscape
  import opened LinkPattern
  import opened LinkRender

  /** Whether a text between two values holds a character no escaped value ever does. */
  predicate HasFence(value: string)
  {
    exists c <- value :: !Emitted(c)
  }

  /** Whether every two placeholders are kept apart by a text with a fence in it. */
  predicate Fenced(segments: seq<Segment>)
  {
    segments == [] ||
    (Fenced(segments[1..])
     && (segments[0].Param? && |segments| > 1 ==> segments[1].Literal? && (|segments| > 2 ==> HasFence(segments[1].value))))
  }

  /** How many characters stand before the first one no escaped value holds. */
  function ToFence(s: string): (n: nat)
    ensures n <= |s|
  {
    if s == "" || !Emitted(s[0]) then 0 else 1 + ToFence(s[1..])
  }

  lemma {:induction false} FenceIsSeen(value: string, text: string, rest: string)
    requires forall c <- value :: Emitted(c)
    requires HasFence(text)
    ensures ToFence(value + (text + rest)) == |value| + ToFence(text)
  {
    if value == "" {
      assert value + (text + rest) == text + rest;
      FenceInside(text, rest);
    } else {
      assert (value + (text + rest))[1..] == value[1..] + (text + rest);
      FenceIsSeen(value[1..], text, rest);
    }
  }

  lemma {:induction false} FenceInside(text: string, rest: string)
    requires HasFence(text)
    ensures ToFence(text + rest) == ToFence(text)
  {
    if Emitted(text[0]) {
      assert (text + rest)[1..] == text[1..] + rest;
      var c :| c in text && !Emitted(c);
      assert c in text[1..];
      FenceInside(text[1..], rest);
    }
  }

  /** Two values before one fenced text, each followed by something, are one value when the whole is the same. */
  lemma ValueBeforeFence(x: string, y: string, text: string, r: string, q: string)
    requires forall c <- x :: Emitted(c)
    requires forall c <- y :: Emitted(c)
    requires HasFence(text) && x + (text + r) == y + (text + q)
    ensures x == y && text + r == text + q
  {
    FenceIsSeen(x, text, r);
    FenceIsSeen(y, text, q);
    var s := x + (text + r);
    assert x == s[..|x|] && y == s[..|y|] && text + r == s[|x|..] && text + q == s[|y|..];
  }

  lemma SameSuffix(x: string, y: string, rest: string)
    requires x + rest == y + rest
    ensures x == y
  {
    assert x == (x + rest)[..|x|] && y == (y + rest)[..|y|];
  }

  lemma SamePrefix(text: string, r: string, q: string)
    requires text + r == text + q
    ensures r == q
  {
    assert r == (text + r)[|text|..] && q == (text + q)[|text|..];
  }

  /** Whether two data hold one text under `name`. */
  predicate Agree(d: Data, e: Data, name: string)
  {
    TextOf(d, name) == TextOf(e, name)
  }

  /** One value at the front of two renderings that are the same, and what follows it. */
  lemma FrontValue(segments: seq<Segment>, d: Data, e: Data)
    requires Fenced(segments) && segments != [] && segments[0].Param?
    requires Render(segments, d).Some? && Render(segments, d) == Render(segments, e)
    ensures Agree(d, e, segments[0].name) && Render(segments[1..], d) == Render(segments[1..], e)
  {
    var name, rest := segments[0].name, segments[1..];
    var s, t := TextOf(d, name).value, TextOf(e, name).value;
    var x, y := Encode(s), Encode(t);
    var r, q := Render(rest, d).value, Render(rest, e).value;
    assert x + r == y + q;
    if rest == [] {
      assert x + "" == x && y + "" == y;
    } else if |rest| == 1 {
      assert rest == [rest[0]];
      RenderSingle(rest[0], d);
      RenderSingle(rest[0], e);
      SameSuffix(x, y, r);
    } else {
      var text := rest[0].value;
      var r', q' := Render(rest[1..], d).value, Render(rest[1..], e).value;
      assert r == text + r' && q == text + q';
      ValueBeforeFence(x, y, text, r', q');
    }
    EncodeInjective(s, t);
    SamePrefix(x, r, q);
  }

  /**
   * With a fence between every two placeholders, a rendered link can be read back: one output comes from one
   * text for every field the template names.
   */
  lemma {:induction false} FencedReadsBack(segments: seq<Segment>, d: Data, e: Data)
    requires Fenced(segments) && Render(segments, d).Some? && Render(segments, d) == Render(segments, e)
    ensures forall name <- NamesOf(segments) :: Agree(d, e, name)
  {
    if segments != [] {
      var rest := segments[1..];
      if segments[0].Param? {
        FrontValue(segments, d, e);
      } else {
        SamePrefix(segments[0].value, Render(rest, d).value, Render(rest, e).value);
      }
      FencedReadsBack(rest, d, e);
    }
  }

  /** And when the field was declared of one kind, from one value: two links that are the same were given the same. */
  lemma FencedValuesReadBack(segments: seq<Segment>, d: Data, e: Data, name: string)
    requires Fenced(segments) && Render(segments, d).Some? && Render(segments, d) == Render(segments, e)
    requires name in NamesOf(segments)
    ensures name in d && name in e
    ensures (d[name].Text? && e[name].Text?) || (d[name].Number? && e[name].Number?) || (d[name].Flag? && e[name].Flag?) ==>
              d[name] == e[name]
  {
    FencedReadsBack(segments, d, e);
    AcceptsWhatItRenders(segments, d);
    AcceptsWhatItRenders(segments, e);
    assert Agree(d, e, name);
    ValuesAreWrittenAsTheyAre(d, name, d[name]);
    ValuesAreWrittenAsTheyAre(e, name, e[name]);
  }

  // ------------------------------------------------ what cannot be read back

  /** Two placeholders with `mid` between them, or nothing. */
  function Pair(p: string, mid: string, q: string): seq<Segment>
  {
    [Param(p)] + (Lead(mid) + [Param(q)])
  }

  function Wide(mid: string): string
  {
    "x" + mid + "x"
  }

  lemma WideIsPlain(mid: string)
    requires forall c <- mid :: Unreserved(c)
    ensures forall c <- Wide(mid) :: Unreserved(c)
    ensures Wide(mid) + (mid + "x") == "x" + (mid + Wide(mid))
  {
    assert ("x" + mid + "x") + (mid + "x") == "x" + (mid + ("x" + mid + "x"));
  }

  /** One letter for every name, but `wide`, which also takes the text between two placeholders. */
  function Filled(names: seq<string>, wide: string, mid: string): Data
  {
    map name <- names :: name := Text(if name == wide then Wide(mid) else "x")
  }

  lemma {:induction false} AgreeRenders(segments: seq<Segment>, d: Data, e: Data)
    requires forall name <- NamesOf(segments) :: Agree(d, e, name)
    ensures Render(segments, d) == Render(segments, e)
  {
    if segments != [] {
      var rest := NamesOf(segments[1..]);
      if segments[0].Param? {
        assert NamesOf(segments) == [segments[0].name] + rest;
        assert segments[0].name in NamesOf(segments);
        assert forall n <- rest :: n in NamesOf(segments);
      } else {
        assert NamesOf(segments) == rest;
      }
      AgreeRenders(segments[1..], d, e);
    }
  }

  lemma NamesOfPair(p: string, mid: string, q: string)
    ensures NamesOf(Pair(p, mid, q)) == [p, q]
  {
    NamesOfAppend([Param(p)], Lead(mid) + [Param(q)]);
    NamesOfAppend(Lead(mid), [Param(q)]);
  }

  /** What a pair of placeholders writes when both have a plain value. */
  lemma RenderPair(p: string, mid: string, q: string, data: Data, a: string, b: string)
    requires TextOf(data, p) == Some(a) && TextOf(data, q) == Some(b)
    requires (forall c <- a :: Unreserved(c)) && (forall c <- b :: Unreserved(c))
    ensures Render(Pair(p, mid, q), data) == Some(a + (mid + b))
  {
    UnreservedIsKept(a);
    UnreservedIsKept(b);
    RenderSingle(Param(p), data);
    RenderSingle(Param(q), data);
    RenderAppend([Param(p)], Lead(mid) + [Param(q)], data);
    RenderAppend(Lead(mid), [Param(q)], data);
    if mid == "" {
      assert "" + b == b;
    } else {
      RenderSingle(Literal(mid), data);
    }
  }

  lemma WideText(names: seq<string>, wide: string, mid: string, name: string)
    requires name in names
    ensures TextOf(Filled(names, wide, mid), name) == Some(if name == wide then Wide(mid) else "x")
  {
  }

  lemma {:induction false} FilledRenders(segments: seq<Segment>, names: seq<string>, wide: string, mid: string)
    requires forall name <- NamesOf(segments) :: name in names
    ensures Render(segments, Filled(names, wide, mid)).Some?
  {
    AcceptsWhatItRenders(segments, Filled(names, wide, mid));
    forall name <- NamesOf(segments)
      ensures TextOf(Filled(names, wide, mid), name).Some?
    {
      WideText(names, wide, mid, name);
    }
  }

  /** In a list without repeats, two neighbours differ from each other and from all the rest. */
  lemma NeighboursDiffer(a: seq<string>, p: string, q: string, b: seq<string>)
    requires Distinct(a + ([p, q] + b))
    ensures p != q
    ensures forall n <- a + b :: n != p && n != q
  {
    var all := a + ([p, q] + b);
    assert all[|a|] == p && all[|a| + 1] == q;
    forall n <- a + b
      ensures n != p && n != q
    {
      if n in a {
        var i :| 0 <= i < |a| && a[i] == n;
        assert all[i] == n;
      } else {
        var i :| 0 <= i < |b| && b[i] == n;
        assert all[|a| + 2 + i] == n;
      }
    }
  }

  lemma NamesAround(first: seq<Segment>, p: string, mid: string, q: string, last: seq<Segment>)
    requires Distinct(NamesOf(first + (Pair(p, mid, q) + last)))
    ensures NamesOf(first + (Pair(p, mid, q) + last)) == NamesOf(first) + ([p, q] + NamesOf(last))
    ensures p != q
    ensures forall n <- NamesOf(first) + NamesOf(last) :: n != p && n != q
  {
    NamesOfAppend(first, Pair(p, mid, q) + last);
    NamesOfAppend(Pair(p, mid, q), last);
    NamesOfPair(p, mid, q);
    NeighboursDiffer(NamesOf(first), p, q, NamesOf(last));
  }

  lemma SameParts(first: seq<Segment>, pair: seq<Segment>, last: seq<Segment>, d: Data, e: Data)
    requires Render(first, d) == Render(first, e) && Render(pair, d) == Render(pair, e) && Render(last, d) == Render(last, e)
    ensures Render(first + (pair + last), d) == Render(first + (pair + last), e)
  {
    RenderAppend(first, pair + last, d);
    RenderAppend(first, pair + last, e);
    RenderAppend(pair, last, d);
    RenderAppend(pair, last, e);
  }

  /** The pair itself: the text between goes into the first value, or into the second. */
  lemma PairIsAmbiguous(names: seq<string>, p: string, mid: string, q: string)
    requires p in names && q in names && p != q && forall c <- mid :: Unreserved(c)
    ensures Render(Pair(p, mid, q), Filled(names, p, mid)) == Render(Pair(p, mid, q), Filled(names, q, mid))
    ensures !Agree(Filled(names, p, mid), Filled(names, q, mid), p)
  {
    var d, e := Filled(names, p, mid), Filled(names, q, mid);
    WideText(names, p, mid, p);
    WideText(names, p, mid, q);
    WideText(names, q, mid, p);
    WideText(names, q, mid, q);
    WideIsPlain(mid);
    RenderPair(p, mid, q, d, Wide(mid), "x");
    RenderPair(p, mid, q, e, "x", Wide(mid));
    assert |Wide(mid)| >= 2;
  }

  lemma OthersAgree(segments: seq<Segment>, names: seq<string>, p: string, mid: string, q: string)
    requires forall n <- NamesOf(segments) :: n in names && n != p && n != q
    ensures Render(segments, Filled(names, p, mid)) == Render(segments, Filled(names, q, mid))
  {
    forall n <- NamesOf(segments)
      ensures Agree(Filled(names, p, mid), Filled(names, q, mid), n)
    {
      WideText(names, p, mid, n);
      WideText(names, q, mid, n);
    }
    AgreeRenders(segments, Filled(names, p, mid), Filled(names, q, mid));
  }

  /** Two placeholders with nothing but unreserved characters between them: two sets of values, one link. */
  lemma PlainSeparatorIsAmbiguous(first: seq<Segment>, p: string, mid: string, q: string, last: seq<Segment>)
    returns (d: Data, e: Data)
    requires Distinct(NamesOf(first + (Pair(p, mid, q) + last))) && forall c <- mid :: Unreserved(c)
    ensures var segments := first + (Pair(p, mid, q) + last);
            && Render(segments, d).Some? && Render(segments, d) == Render(segments, e)
            && p in NamesOf(segments) && !Agree(d, e, p)
  {
    var segments := first + (Pair(p, mid, q) + last);
    var names := NamesOf(segments);
    NamesAround(first, p, mid, q, last);
    assert names[|NamesOf(first)|] == p && names[|NamesOf(first)| + 1] == q;
    forall n <- NamesOf(first) + NamesOf(last)
      ensures n in names && n != p && n != q
    {
    }
    d, e := Filled(names, p, mid), Filled(names, q, mid);
    PairIsAmbiguous(names, p, mid, q);
    OthersAgree(first, names, p, mid, q);
    OthersAgree(last, names, p, mid, q);
    SameParts(first, Pair(p, mid, q), last, d, e);
    FilledRenders(segments, names, p, mid);
  }

  /** Whether a link rendered from `segments` always says what every field held. */
  ghost predicate ReadsBack(segments: seq<Segment>)
  {
    forall d: Data, e: Data | Render(segments, d).Some? && Render(segments, d) == Render(segments, e) ::
      forall name <- NamesOf(segments) :: Agree(d, e, name)
  }

  predicate PercentFree(segments: seq<Segment>)
  {
    forall s <- segments :: s.Literal? ==> '%' !in s.value
  }

  /** Where a template keeps two placeholders apart with no fence. */
  lemma {:induction false} Unfenced(segments: seq<Segment>)
    returns (first: seq<Segment>, p: string, mid: string, q: string, last: seq<Segment>)
    requires WellFormed(segments) && !Fenced(segments)
    ensures segments == first + (Pair(p, mid, q) + last) && !HasFence(mid)
    ensures mid != "" ==> Literal(mid) in segments
  {
    var rest := segments[1..];
    assert segments == [segments[0]] + rest;
    if !Fenced(rest) {
      first, p, mid, q, last := Unfenced(rest);
      assert segments == ([segments[0]] + first) + (Pair(p, mid, q) + last);
      first := [segments[0]] + first;
    } else if rest[0].Param? {
      first, p, mid, q, last := [], segments[0].name, "", rest[0].name, rest[1..];
      assert segments == [] + (Pair(p, mid, q) + last);
    } else {
      assert rest[1].Param?;
      first, p, mid, q, last := [], segments[0].name, rest[0].value, rest[1].name, rest[2..];
      assert rest[0] in segments;
      assert segments == [] + (Pair(p, mid, q) + last);
    }
  }

  /** With no percent sign in its texts, a template reads back exactly when every two placeholders are fenced. */
  lemma ReadsBackIff(segments: seq<Segment>)
    requires WellFormed(segments) && Distinct(NamesOf(segments)) && PercentFree(segments)
    ensures ReadsBack(segments) <==> Fenced(segments)
  {
    if Fenced(segments) {
      forall d: Data, e: Data | Render(segments, d).Some? && Render(segments, d) == Render(segments, e)
        ensures forall name <- NamesOf(segments) :: Agree(d, e, name)
      {
        FencedReadsBack(segments, d, e);
      }
    } else {
      var first, p, mid, q, last := Unfenced(segments);
      forall c <- mid
        ensures Unreserved(c)
      {
        assert Emitted(c) && Literal(mid) in segments;
      }
      var d, e := PlainSeparatorIsAmbiguous(first, p, mid, q, last);
    }
  }
}
