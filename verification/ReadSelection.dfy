/** A read declaration compiled into a selection, and why the selection says which declaration it was. */
module ReadSelection {
  import opened Results

  /**
   * One entry of a selection: a column under an alias, a table folded in under an alias, or, in the identity every
   * account is read with, a column as it is. A read shape is a list of entries, which a table folded in holds too.
   */
  datatype Field =
    | Bare(column: string)
    | Aliased(alias: string, column: string)
    | Folded(alias: string, table: string, fields: seq<Field>)

  // ---------------------------------------------------------------- printing

  function PrintField(f: Field): string
    decreases f
  {
    match f
    case Bare(column) => column
    case Aliased(alias, column) => alias + ":" + column
    case Folded(alias, table, fields) => alias + ":" + table + "(" + PrintFields(fields) + ")"
  }

  /** Every entry, printed, with a comma between each two. */
  function PrintFields(fields: seq<Field>): string
    decreases fields
  {
    if fields == [] then ""
    else if |fields| == 1 then PrintField(fields[0])
    else PrintField(fields[0]) + "," + PrintFields(fields[1..])
  }

  /** A read shape compiled into what the table interface reads as a selection. */
  function CompileRead(shape: seq<Field>): string
  {
    PrintFields(shape)
  }

  /** What every account is read with, whatever its role declares beside it. */
  const IDENTITY: seq<Field> := [
    Bare("id"), Bare("role"), Bare("email"), Bare("phone"),
    Aliased("emailVerified", "email_verified"),
    Aliased("phoneVerified", "phone_verified"),
    Aliased("createdAt", "created_at"),
    Folded("banned", "__account_bans__", [Bare("since"), Bare("until"), Bare("reason")])
  ]

  /** The identity, and what the role declares, when it declares anything. */
  function Select(shape: seq<Field>): string
  {
    var read := CompileRead(shape);
    if |read| == 0 then PrintFields(IDENTITY) else PrintFields(IDENTITY) + "," + read
  }

  // ----------------------------------------------------------------- parsing

  predicate IsMark(c: char)
  {
    c == ':' || c == ',' || c == '(' || c == ')'
  }

  /** How long a name `s` starts with. */
  function Run(s: string): (n: nat)
    ensures n <= |s|
  {
    if s == "" || IsMark(s[0]) then 0 else 1 + Run(s[1..])
  }

  /** One entry read off the front of `s`, and what is left of it. */
  function ParseField(s: string): (r: Option<(Field, string)>)
    ensures r.Some? ==> |r.value.1| < |s|
    decreases |s|, 0
  {
    var n := Run(s);
    if n == 0 then None
    else if n == |s| || s[n] != ':' then Some((Bare(s[..n]), s[n..]))
    else ParseTarget(s[..n], s[n + 1..])
  }

  /** What an alias names: a column, or a table with its own entries. */
  function ParseTarget(alias: string, s: string): (r: Option<(Field, string)>)
    ensures r.Some? ==> |r.value.1| < |s|
    decreases |s|, 2
  {
    var n := Run(s);
    if n == 0 then None
    else if n == |s| || s[n] != '(' then Some((Aliased(alias, s[..n]), s[n..]))
    else
      match ParseFields(s[n + 1..])
      case None => None
      case Some((fields, rest)) =>
        if rest != "" && rest[0] == ')' then Some((Folded(alias, s[..n], fields), rest[1..])) else None
  }

  /** Every entry up to a closing mark or the end, and what is left. */
  function ParseFields(s: string): (r: Option<(seq<Field>, string)>)
    ensures r.Some? ==> |r.value.1| <= |s|
    decreases |s|, 1
  {
    if s == "" || s[0] == ')' then Some(([], s))
    else
      match ParseField(s)
      case None => None
      case Some((f, rest)) =>
        if rest == "" || rest[0] != ',' then Some(([f], rest))
        else
          match ParseFields(rest[1..])
          case None => None
          case Some((fields, left)) => Some(([f] + fields, left))
  }

  // -------------------------------------------------------------- round trip

  predicate IsName(s: string)
  {
    s != "" && forall c <- s :: !IsMark(c)
  }

  /** Whether every name, at any depth, is one a selection can spell. */
  predicate Spellable(f: Field)
    decreases f
  {
    match f
    case Bare(column) => IsName(column)
    case Aliased(alias, column) => IsName(alias) && IsName(column)
    case Folded(alias, table, fields) => IsName(alias) && IsName(table) && forall g <- fields :: Spellable(g)
  }

  predicate Stops(tail: string)
  {
    tail == "" || IsMark(tail[0])
  }

  lemma {:induction false} RunOf(name: string, tail: string)
    requires (forall c <- name :: !IsMark(c)) && Stops(tail)
    ensures Run(name + tail) == |name|
  {
    if name == "" {
      assert name + tail == tail;
    } else {
      assert (name + tail)[1..] == name[1..] + tail;
      RunOf(name[1..], tail);
    }
  }

  lemma ReadsBare(column: string, tail: string)
    requires IsName(column) && Stops(tail) && (tail == "" || tail[0] != ':')
    ensures ParseField(column + tail) == Some((Bare(column), tail))
  {
    RunOf(column, tail);
    assert (column + tail)[..|column|] == column && (column + tail)[|column|..] == tail;
  }

  lemma ReadsAlias(alias: string, rest: string)
    requires IsName(alias)
    ensures ParseField(alias + (":" + rest)) == ParseTarget(alias, rest)
  {
    var s := alias + (":" + rest);
    RunOf(alias, ":" + rest);
    assert s[..|alias|] == alias && s[|alias| + 1..] == rest;
  }

  lemma ReadsColumn(alias: string, column: string, tail: string)
    requires IsName(column) && Stops(tail) && (tail == "" || tail[0] != '(')
    ensures ParseTarget(alias, column + tail) == Some((Aliased(alias, column), tail))
  {
    RunOf(column, tail);
    assert (column + tail)[..|column|] == column && (column + tail)[|column|..] == tail;
  }

  lemma ReadsTable(alias: string, table: string, inner: string, fields: seq<Field>, tail: string)
    requires IsName(table) && ParseFields(inner + (")" + tail)) == Some((fields, ")" + tail))
    ensures ParseTarget(alias, table + ("(" + (inner + (")" + tail)))) == Some((Folded(alias, table, fields), tail))
  {
    var rest := inner + (")" + tail);
    var s := table + ("(" + rest);
    RunOf(table, "(" + rest);
    assert s[..|table|] == table && s[|table| + 1..] == rest;
    assert (")" + tail)[1..] == tail;
  }

  predicate EndsField(tail: string)
  {
    tail == "" || tail[0] == ',' || tail[0] == ')'
  }

  /** One entry is read back, whatever entry or mark follows it. */
  lemma {:induction false} FieldReadsBack(f: Field, tail: string)
    requires Spellable(f) && EndsField(tail)
    ensures ParseField(PrintField(f) + tail) == Some((f, tail))
    decreases f
  {
    match f
    case Bare(column) => ReadsBare(column, tail);
    case Aliased(alias, column) =>
      ReadsAliased(alias, column, tail);
    case Folded(alias, table, fields) =>
      FieldsReadBack(fields, ")" + tail);
      ReadsFolded(alias, table, PrintFields(fields), fields, tail);
  }

  lemma ReadsAliased(alias: string, column: string, tail: string)
    requires IsName(alias) && IsName(column) && EndsField(tail)
    ensures ParseField((alias + ":" + column) + tail) == Some((Aliased(alias, column), tail))
  {
    assert (alias + ":" + column) + tail == alias + (":" + (column + tail));
    ReadsAlias(alias, column + tail);
    ReadsColumn(alias, column, tail);
  }

  lemma FoldedText(alias: string, table: string, inner: string, tail: string)
    ensures (alias + ":" + table + "(" + inner + ")") + tail == alias + (":" + (table + ("(" + (inner + (")" + tail)))))
  {
    var a, b := alias + ":", table + "(";
    assert (a + table + "(" + inner + ")") + tail == a + (b + (inner + (")" + tail)));
    assert b + (inner + (")" + tail)) == table + ("(" + (inner + (")" + tail)));
  }

  lemma ReadsFolded(alias: string, table: string, inner: string, fields: seq<Field>, tail: string)
    requires IsName(alias) && IsName(table) && ParseFields(inner + (")" + tail)) == Some((fields, ")" + tail))
    ensures ParseField((alias + ":" + table + "(" + inner + ")") + tail) == Some((Folded(alias, table, fields), tail))
  {
    FoldedText(alias, table, inner, tail);
    ReadsAlias(alias, table + ("(" + (inner + (")" + tail))));
    ReadsTable(alias, table, inner, fields, tail);
  }

  lemma {:induction false} PrintsSomething(f: Field)
    requires Spellable(f)
    ensures PrintField(f) != "" && !IsMark(PrintField(f)[0])
  {
  }

  /** A whole list of entries is read back, at any depth. */
  lemma {:induction false} FieldsReadBack(fields: seq<Field>, tail: string)
    requires (forall f <- fields :: Spellable(f)) && (tail == "" || tail[0] == ')')
    ensures ParseFields(PrintFields(fields) + tail) == Some((fields, tail))
    decreases fields
  {
    if fields == [] {
      assert PrintFields(fields) + tail == tail;
    } else {
      var first, rest := fields[0], fields[1..];
      PrintsSomething(first);
      if |fields| == 1 {
        FieldReadsBack(first, tail);
        ReadsLast(PrintField(first), first, tail);
        assert fields == [first];
      } else {
        FieldReadsBack(first, "," + (PrintFields(rest) + tail));
        FieldsReadBack(rest, tail);
        ReadsNext(PrintField(first), first, PrintFields(rest), rest, tail);
        assert fields == [first] + rest;
      }
    }
  }

  lemma ReadsLast(text: string, f: Field, tail: string)
    requires text != "" && !IsMark(text[0]) && (tail == "" || tail[0] == ')')
    requires ParseField(text + tail) == Some((f, tail))
    ensures ParseFields(text + tail) == Some(([f], tail))
  {
  }

  lemma ReadsFirst(s: string, f: Field, after: string, rest: seq<Field>, tail: string)
    requires s != "" && !IsMark(s[0])
    requires ParseField(s) == Some((f, "," + after)) && ParseFields(after) == Some((rest, tail))
    ensures ParseFields(s) == Some(([f] + rest, tail))
  {
    assert ("," + after)[1..] == after;
  }

  lemma JoinedText(text: string, more: string, tail: string)
    ensures (text + "," + more) + tail == text + ("," + (more + tail))
  {
  }

  lemma ReadsNext(text: string, f: Field, more: string, rest: seq<Field>, tail: string)
    requires text != "" && !IsMark(text[0])
    requires ParseField(text + ("," + (more + tail))) == Some((f, "," + (more + tail)))
    requires ParseFields(more + tail) == Some((rest, tail))
    ensures ParseFields((text + "," + more) + tail) == Some(([f] + rest, tail))
  {
    JoinedText(text, more, tail);
    ReadsFirst(text + ("," + (more + tail)), f, more + tail, rest, tail);
  }

  // ---------------------------------------------------------------- theorems

  /** A compiled shape is read back by the parser, so two shapes that compile alike are the same shape. */
  lemma CompiledShapeReadsBack(shape: seq<Field>)
    requires forall f <- shape :: Spellable(f)
    ensures ParseFields(CompileRead(shape)) == Some((shape, ""))
  {
    FieldsReadBack(shape, "");
    assert CompileRead(shape) + "" == CompileRead(shape);
  }

  lemma {:induction false} PrintAppends(first: seq<Field>, second: seq<Field>)
    requires first != [] && second != []
    ensures PrintFields(first + second) == PrintFields(first) + "," + PrintFields(second)
  {
    if |first| == 1 {
      assert (first + second)[1..] == second;
    } else {
      PrintAppends(first[1..], second);
      assert (first + second)[1..] == first[1..] + second;
      assert PrintField(first[0]) + "," + (PrintFields(first[1..]) + "," + PrintFields(second))
          == PrintField(first[0]) + "," + PrintFields(first[1..]) + "," + PrintFields(second);
    }
  }

  lemma NothingCompilesToNothing(shape: seq<Field>)
    requires forall f <- shape :: Spellable(f)
    ensures |CompileRead(shape)| == 0 <==> shape == []
  {
    if shape != [] {
      PrintsSomething(shape[0]);
    }
  }

  lemma PlainNames()
    ensures IsName("id") && IsName("role") && IsName("email") && IsName("phone")
    ensures IsName("since") && IsName("until") && IsName("reason")
  {
  }

  lemma LongNames()
    ensures IsName("emailVerified") && IsName("email_verified") && IsName("phoneVerified") && IsName("phone_verified")
  {
  }

  lemma OtherNames()
    ensures IsName("createdAt") && IsName("created_at") && IsName("banned") && IsName("__account_bans__")
  {
  }

  lemma IdentityIsSpellable()
    ensures forall f <- IDENTITY :: Spellable(f)
  {
    PlainNames();
    LongNames();
    OtherNames();
    forall i | 0 <= i < |IDENTITY|
      ensures Spellable(IDENTITY[i])
    {
    }
  }

  /** Appended to the identity, a shape is still read back: what is selected is the identity, then the shape. */
  lemma SelectionReadsBack(shape: seq<Field>)
    requires forall f <- shape :: Spellable(f)
    ensures ParseFields(Select(shape)) == Some((IDENTITY + shape, ""))
  {
    IdentityIsSpellable();
    NothingCompilesToNothing(shape);
    var all := IDENTITY + shape;
    if shape == [] {
      assert all == IDENTITY;
    } else {
      PrintAppends(IDENTITY, shape);
    }
    FieldsReadBack(all, "");
    assert PrintFields(all) + "" == PrintFields(all);
  }

  /** Two roles that select alike declared the same shape. */
  lemma SelectionIsUnambiguous(a: seq<Field>, b: seq<Field>)
    requires (forall f <- a :: Spellable(f)) && (forall f <- b :: Spellable(f))
    ensures CompileRead(a) == CompileRead(b) ==> a == b
    ensures Select(a) == Select(b) ==> a == b
  {
    CompiledShapeReadsBack(a);
    CompiledShapeReadsBack(b);
    SelectionReadsBack(a);
    SelectionReadsBack(b);
    assert a == (IDENTITY + a)[|IDENTITY|..] && b == (IDENTITY + b)[|IDENTITY|..];
  }
}
