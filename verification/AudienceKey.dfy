/** The names an audience, a member and a cached membership answer to, and why no two of them meet. */
module AudienceKey {
  import opened Results
  import opened Text

  datatype KeyError = AudienceKeyError(segment: string) | AudienceMemberError(member: string)

  const SEGMENT_MAX_LENGTH := 128
  const MEMBER_MAX_LENGTH := 512
  const SCOPE_SEPARATOR := ':'
  const ENTRY_SEPARATOR := '|'

  predicate SegmentChar(c: char)
  {
    'A' <= c <= 'Z' || 'a' <= c <= 'z' || '0' <= c <= '9' || c == '_' || c == '-'
  }

  /** How many UTF-16 units a string takes, which is what its length means to the source. */
  function Units(s: string): nat
  {
    if s == [] then 0 else (if s[0] as int > 0xFFFF then 2 else 1) + Units(s[1..])
  }

  predicate MemberChar(c: char)
  {
    0x1f < c as int && c as int != 0x7f && c != ENTRY_SEPARATOR
  }

  predicate IsSegment(value: string)
  {
    value != [] && Units(value) <= SEGMENT_MAX_LENGTH && forall c <- value :: SegmentChar(c)
  }

  predicate IsMember(value: string)
  {
    value != [] && Units(value) <= MEMBER_MAX_LENGTH && forall c <- value :: MemberChar(c)
  }

  /** The first refused segment of `parts`, if there is one. */
  function FirstRefused(parts: seq<string>): (r: Option<string>)
    ensures r == None <==> forall p <- parts :: IsSegment(p)
    ensures r.Some? ==> exists i :: 0 <= i < |parts| && parts[i] == r.value && !IsSegment(parts[i]) && forall j | 0 <= j < i :: IsSegment(parts[j])
  {
    if parts == [] then None
    else if !IsSegment(parts[0]) then Some(parts[0])
    else FirstRefused(parts[1..])
  }

  /** The key `name` answers to once narrowed to `scope`, empty for a global audience. */
  function AudienceKey(name: string, scope: seq<string>): (r: Result<string, KeyError>)
    ensures r.Success? <==> forall p <- [name] + scope :: IsSegment(p)
    ensures r.Failure? ==> r.error.AudienceKeyError? && r.error.segment in [name] + scope && !IsSegment(r.error.segment)
  {
    match FirstRefused([name] + scope)
    case Some(p) => Failure(AudienceKeyError(p))
    case None => Success(Join([name] + scope, SCOPE_SEPARATOR))
  }

  /** The cache entry one membership of one generation is held under. */
  function EntryOf(audience: string, generation: int, member: string): string
  {
    audience + [ENTRY_SEPARATOR] + (Decimal(generation) + [ENTRY_SEPARATOR] + member)
  }

  lemma {:induction false} JoinOneMore(parts: seq<string>, last: string, sep: char)
    requires parts != []
    ensures Join(parts + [last], sep) == Join(parts, sep) + [sep] + last
  {
    if |parts| == 1 {
      assert (parts + [last])[1..] == [last];
    } else {
      assert (parts + [last])[1..] == parts[1..] + [last];
      JoinOneMore(parts[1..], last, sep);
      assert parts[0] + [sep] + (Join(parts[1..], sep) + [sep] + last) == (parts[0] + [sep] + Join(parts[1..], sep)) + [sep] + last;
    }
  }

  /** A global audience answers to its name, and one narrowed by one more scope to that scope after a colon. */
  lemma KeyIsSpelledOut(name: string, scope: seq<string>, more: string)
    ensures AudienceKey(name, []).Success? ==> AudienceKey(name, []).value == name
    ensures var narrow, narrower := AudienceKey(name, scope), AudienceKey(name, scope + [more]);
            && (narrower.Success? <==> narrow.Success? && IsSegment(more))
            && (narrower.Success? ==> narrower.value == narrow.value + ":" + more)
  {
    assert [name] + (scope + [more]) == ([name] + scope) + [more];
    var parts := [name] + scope;
    forall p <- parts + [more]
      ensures p in parts || p == more
    {
    }
    assert (parts + [more])[|parts|] == more;
    assert forall p <- parts :: p in parts + [more];
    JoinOneMore(parts, more, SCOPE_SEPARATOR);
  }

  /** A key of the shape declarations are given never holds the entry separator. */
  predicate IsKey(audience: string)
  {
    ENTRY_SEPARATOR !in audience
  }

  lemma {:induction false} JoinHoldsNoBar(parts: seq<string>)
    requires forall p <- parts :: IsSegment(p)
    ensures IsKey(Join(parts, SCOPE_SEPARATOR))
  {
    if parts != [] {
      assert IsSegment(parts[0]);
      JoinHoldsNoBar(parts[1..]);
    }
  }

  lemma AcceptedKeyHoldsNoBar(name: string, scope: seq<string>)
    ensures AudienceKey(name, scope).Success? ==> IsKey(AudienceKey(name, scope).value)
  {
    if AudienceKey(name, scope).Success? {
      JoinHoldsNoBar([name] + scope);
    }
  }

  /** Two audiences share a key only by being the same name under the same scopes. */
  lemma AudienceKeyInjective(name: string, scope: seq<string>, name': string, scope': seq<string>)
    requires AudienceKey(name, scope).Success? && AudienceKey(name, scope) == AudienceKey(name', scope')
    ensures name == name' && scope == scope'
  {
    var p, q := [name] + scope, [name'] + scope';
    forall s | s in p || s in q
      ensures SCOPE_SEPARATOR !in s
    {
      assert IsSegment(s);
    }
    JoinInjective(p, q, SCOPE_SEPARATOR);
    assert p[0] == name && q[0] == name' && p[1..] == scope && q[1..] == scope';
  }

  /** Two memberships share a cache entry only by being one member, of one generation, of one audience. */
  lemma EntryInjective(audience: string, generation: int, member: string,
                       audience': string, generation': int, member': string)
    requires IsKey(audience) && IsKey(audience')
    ensures EntryOf(audience, generation, member) == EntryOf(audience', generation', member')
       <==> audience == audience' && generation == generation' && member == member'
  {
    if EntryOf(audience, generation, member) == EntryOf(audience', generation', member') {
      SplitAtFirst(audience, Decimal(generation) + [ENTRY_SEPARATOR] + member,
                   audience', Decimal(generation') + [ENTRY_SEPARATOR] + member', ENTRY_SEPARATOR);
      SplitAtFirst(Decimal(generation), member, Decimal(generation'), member', ENTRY_SEPARATOR);
      DecimalInjective(generation, generation');
    }
  }

  /** From declaration to cache entry: accepted names, scopes, generations and members never meet. */
  lemma AcceptedTuplesNeverMeet(name: string, scope: seq<string>, generation: int, member: string,
                                name': string, scope': seq<string>, generation': int, member': string)
    requires AudienceKey(name, scope).Success? && AudienceKey(name', scope').Success?
    requires EntryOf(AudienceKey(name, scope).value, generation, member)
             == EntryOf(AudienceKey(name', scope').value, generation', member')
    ensures name == name' && scope == scope' && generation == generation' && member == member'
  {
    AcceptedKeyHoldsNoBar(name, scope);
    AcceptedKeyHoldsNoBar(name', scope');
    EntryInjective(AudienceKey(name, scope).value, generation, member,
                   AudienceKey(name', scope').value, generation', member');
    AudienceKeyInjective(name, scope, name', scope');
  }
}
