/** Strings as the keys of this system need them: numerals, joining, splitting and ordering. */
module Text {

  // ---------------------------------------------------------------- numerals

  /** The character of one decimal digit. */
  function DigitChar(d: nat): (c: char)
    requires d < 10
    ensures '0' <= c <= '9' && c as int == '0' as int + d
  {
    (('0' as int) + d) as char
  }

  /** The decimal numeral of a natural number, as string interpolation writes it. */
  function Digits(n: nat): (s: string)
    ensures s != []
    ensures forall c <- s :: '0' <= c <= '9'
  {
    if n < 10 then [DigitChar(n)] else Digits(n / 10) + [DigitChar(n % 10)]
  }

  /** The number a run of digits stands for. */
  function ValueOf(s: string): int
  {
    if s == [] then 0 else 10 * ValueOf(s[..|s| - 1]) + (s[|s| - 1] as int - '0' as int)
  }

  lemma {:induction false} ValueOfDigits(n: nat)
    ensures ValueOf(Digits(n)) == n
  {
    if n < 10 {
      assert Digits(n)[..0] == [];
    } else {
      ValueOfDigits(n / 10);
      assert Digits(n)[..|Digits(n)| - 1] == Digits(n / 10);
    }
  }

  /** The decimal numeral of any integer. */
  function Decimal(n: int): (s: string)
    ensures s != []
    ensures forall c <- s :: c == '-' || '0' <= c <= '9'
  {
    if n < 0 then "-" + Digits(-n) else Digits(n)
  }

  /** Two integers that print alike are the same integer. */
  lemma DecimalInjective(m: int, n: int)
    requires Decimal(m) == Decimal(n)
    ensures m == n
  {
    ValueOfDigits(if m < 0 then -m else m);
    ValueOfDigits(if n < 0 then -n else n);
    assert Digits(if m < 0 then -m else m)[0] in Digits(if m < 0 then -m else m);
    assert Digits(if n < 0 then -n else n)[0] in Digits(if n < 0 then -n else n);
    assert (m < 0) == (Decimal(m)[0] == '-');
    assert (n < 0) == (Decimal(n)[0] == '-');
    if m < 0 {
      assert Digits(-m) == Decimal(m)[1..] == Decimal(n)[1..] == Digits(-n);
    }
  }

  // --------------------------------------------------------------- splitting

  /** How many characters stand before the first `sep`, all of them when there is none. */
  function Head(s: string, sep: char): (n: nat)
    ensures n <= |s|
  {
    if s == [] || s[0] == sep then 0 else 1 + Head(s[1..], sep)
  }

  /** How many characters stand after the last `sep`, all of them when there is none. */
  function Tail(s: string, sep: char): (n: nat)
    ensures n <= |s|
  {
    if s == [] || s[|s| - 1] == sep then 0 else 1 + Tail(s[..|s| - 1], sep)
  }

  lemma {:induction false} HeadOf(a: string, b: string, sep: char)
    requires sep !in a
    ensures Head(a + [sep] + b, sep) == |a|
    ensures Head(a, sep) == |a|
  {
    if a != [] {
      HeadOf(a[1..], b, sep);
      assert (a + [sep] + b)[1..] == a[1..] + [sep] + b;
    }
  }

  lemma {:induction false} TailOf(a: string, b: string, sep: char)
    requires sep !in b
    ensures Tail(a + [sep] + b, sep) == |b|
  {
    var s := a + [sep] + b;
    if b == [] {
      assert s[|s| - 1] == sep;
    } else {
      var front := b[..|b| - 1];
      assert s[..|s| - 1] == a + [sep] + front;
      TailOf(a, front, sep);
    }
  }

  /** A separator the left parts never hold says where the left part ends. */
  lemma SplitAtFirst(a: string, b: string, a': string, b': string, sep: char)
    requires sep !in a && sep !in a'
    requires a + [sep] + b == a' + [sep] + b'
    ensures a == a' && b == b'
  {
    HeadOf(a, b, sep);
    HeadOf(a', b', sep);
    var s := a + [sep] + b;
    assert a == s[..|a|] && a' == s[..|a|];
    assert b == s[|a| + 1..] && b' == s[|a| + 1..];
  }

  /** A separator the right parts never hold says where the right part starts. */
  lemma SplitAtLast(a: string, b: string, a': string, b': string, sep: char)
    requires sep !in b && sep !in b'
    requires a + [sep] + b == a' + [sep] + b'
    ensures a == a' && b == b'
  {
    TailOf(a, b, sep);
    TailOf(a', b', sep);
    var s := a + [sep] + b;
    assert |a| == |a'|;
    assert a == s[..|a|] && a' == s[..|a|];
    assert b == s[|a| + 1..] && b' == s[|a| + 1..];
  }

  // ----------------------------------------------------------------- joining

  /** `parts`, one after the other, with `sep` between each two. */
  function Join(parts: seq<string>, sep: char): string
  {
    if parts == [] then ""
    else if |parts| == 1 then parts[0]
    else parts[0] + [sep] + Join(parts[1..], sep)
  }

  lemma HeadOfJoin(parts: seq<string>, sep: char)
    requires parts != [] && sep !in parts[0]
    ensures Head(Join(parts, sep), sep) == |parts[0]|
    ensures |parts| > 1 ==> |Join(parts, sep)| > |parts[0]|
  {
    HeadOf(parts[0], Join(parts[1..], sep), sep);
  }

  /** A joined list is read back as the list it was, when no part holds the separator. */
  lemma {:induction false} JoinInjective(p: seq<string>, q: seq<string>, sep: char)
    requires p != [] && q != []
    requires forall s <- p :: sep !in s
    requires forall s <- q :: sep !in s
    requires Join(p, sep) == Join(q, sep)
    ensures p == q
  {
    HeadOfJoin(p, sep);
    HeadOfJoin(q, sep);
    if |p| > 1 && |q| > 1 {
      SplitAtFirst(p[0], Join(p[1..], sep), q[0], Join(q[1..], sep), sep);
      JoinInjective(p[1..], q[1..], sep);
      assert p == [p[0]] + p[1..] && q == [q[0]] + q[1..];
    }
  }

  // ---------------------------------------------------------------- ordering

  /** The strict order a table sorts a text column by. */
  predicate Before(a: string, b: string)
  {
    b != [] && (a == [] || a[0] < b[0] || (a[0] == b[0] && Before(a[1..], b[1..])))
  }

  lemma {:induction false} BeforeIrreflexive(a: string)
    ensures !Before(a, a)
  {
    if a != [] {
      BeforeIrreflexive(a[1..]);
    }
  }

  lemma {:induction false} BeforeTransitive(a: string, b: string, c: string)
    requires Before(a, b) && Before(b, c)
    ensures Before(a, c)
  {
    if a != [] && a[0] == b[0] && b[0] == c[0] {
      BeforeTransitive(a[1..], b[1..], c[1..]);
    }
  }

  lemma {:induction false} BeforeTotal(a: string, b: string)
    ensures a == b || Before(a, b) || Before(b, a)
  {
    if a != [] && b != [] && a[0] == b[0] {
      BeforeTotal(a[1..], b[1..]);
      assert a == [a[0]] + a[1..] && b == [b[0]] + b[1..];
    }
  }
}
