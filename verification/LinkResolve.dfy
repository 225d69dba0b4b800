/** Resolving a slug, alone or among many, behind a cache that remembers absences too. */
module LinkResolve {
  import opened Results
  import opened LinkBatch

  const VALKERY_TTL := 600_000

  datatype ResolveError = NotFound | Expired | Unknown | Backend

  /** What a resolved link is made of: the row, which names its declaration. */
  datatype Resolved = Resolved(row: Row)

  type Resolution = Result<Resolved, ResolveError>

  /** What the cache holds for one slug: the row that answered to it, or that none did. */
  datatype Entry = Entry(link: Option<Row>, until: int)

  /** The clock, the table, the cache, and the declarations this process registered. */
  datatype Store = Store(now: int, table: Table, entries: map<string, Entry>, declared: set<string>)

  /** What the cache answers for `slug`: nothing held, a row, or a remembered absence. */
  function Held(s: Store, slug: string): Option<Option<Row>>
  {
    if slug in s.entries && s.now < s.entries[slug].until then Some(s.entries[slug].link) else None
  }

  function RowAt(table: Table, slug: string): Option<Row>
  {
    if slug in table then Some(table[slug]) else None
  }

  /** What a row, or the lack of one, answers at `now`. */
  function OutcomeOf(row: Option<Row>, now: int, declared: set<string>): Resolution
  {
    match row
    case None => Failure(NotFound)
    case Some(row) =>
      if row.expiresAt.Some? && row.expiresAt.value < now then Failure(Expired)
      else if row.name !in declared then Failure(Unknown)
      else Success(Resolved(row))
  }

  /** What one slug resolves to: what the cache remembers of it, or else the table, if it answers. */
  function Resolves(s: Store, slug: string, answers: bool): Resolution
  {
    match Held(s, slug)
    case Some(link) => OutcomeOf(link, s.now, s.declared)
    case None => if answers then OutcomeOf(RowAt(s.table, slug), s.now, s.declared) else Failure(ResolveError.Backend)
  }

  /** Whether the cache holds every one of `slugs`. */
  predicate AllHeld(s: Store, slugs: seq<string>)
  {
    forall slug <- slugs :: Held(s, slug).Some?
  }

  /** The cache with one more slug in it, as the table has it. */
  function Remembered(s: Store, slug: string, jitter: nat): Store
  {
    s.(entries := s.entries[slug := Entry(RowAt(s.table, slug), s.now + VALKERY_TTL + jitter)])
  }

  /** What a batch answers for `slug`: the table not answering for one of them is the answer for all. */
  function BatchAnswer(s: Store, slugs: seq<string>, answers: bool, slug: string): Resolution
  {
    if answers || AllHeld(s, slugs) then Resolves(s, slug, true) else Failure(ResolveError.Backend)
  }

  /** A resolved slug never reads as the table not answering. */
  lemma OutcomeIsNeverBackend(row: Option<Row>, now: int, declared: set<string>)
    ensures OutcomeOf(row, now, declared) != Failure(ResolveError.Backend)
  {
  }

  /**
   * A batch answers a slug as asking for it alone would, exactly when the table answers, or need not be asked
   * for any of them, or would have been asked for this one: only a slug the cache holds is let down by another.
   */
  lemma BatchAgreesWithSingleIff(s: Store, slugs: seq<string>, answers: bool, slug: string)
    requires slug in slugs
    ensures BatchAnswer(s, slugs, answers, slug) == Resolves(s, slug, answers)
            <==> answers || AllHeld(s, slugs) || Held(s, slug).None?
  {
    if Held(s, slug).Some? {
      OutcomeIsNeverBackend(Held(s, slug).value, s.now, s.declared);
    }
  }

  /** What the cache holds of `slug` once a batch the table answered is through. */
  function AfterBatch(s: Store, slugs: seq<string>, slug: string): Option<Option<Row>>
  {
    if slug in slugs && Held(s, slug).None? then Some(RowAt(s.table, slug)) else Held(s, slug)
  }

  /** What resolving `slug` alone leaves in the cache. */
  function AfterOne(s: Store, slug: string, jitter: nat): Store
  {
    if Held(s, slug).None? then Remembered(s, slug, jitter) else s
  }

  /** The slugs resolved alone, one after the other: the answers, and the cache they leave. */
  function OneByOne(s: Store, slugs: seq<string>, jitter: nat): (map<string, Resolution>, Store)
  {
    if slugs == [] then (map[], s)
    else
      var front := OneByOne(s, slugs[..|slugs| - 1], jitter);
      var slug := slugs[|slugs| - 1];
      (front.0[slug := Resolves(front.1, slug, true)], AfterOne(front.1, slug, jitter))
  }

  /** Remembering what the table says of a slug the cache does not hold changes no answer. */
  lemma RememberingChangesNoAnswer(s: Store, slug: string, jitter: nat, other: string)
    ensures Resolves(AfterOne(s, slug, jitter), other, true) == Resolves(s, other, true)
    ensures Held(AfterOne(s, slug, jitter), other)
            == if other == slug && Held(s, slug).None? then Some(RowAt(s.table, slug)) else Held(s, other)
  {
  }

  /**
   * While the table answers, a batch is its slugs resolved one after the other: the same keys, the same answers,
   * and a cache that holds the same of every slug, repeats and remembered absences included.
   */
  lemma {:induction false} BatchIsOneByOne(s: Store, slugs: seq<string>, jitter: nat)
    ensures var (answers, after) := OneByOne(s, slugs, jitter);
            && (forall t :: t in answers <==> t in slugs)
            && (forall t <- slugs :: answers[t] == BatchAnswer(s, slugs, true, t))
            && (forall t :: Resolves(after, t, true) == Resolves(s, t, true))
            && (forall t :: Held(after, t) == AfterBatch(s, slugs, t))
            && after.table == s.table && after.now == s.now && after.declared == s.declared
  {
    if slugs != [] {
      var last := |slugs| - 1;
      BatchIsOneByOne(s, slugs[..last], jitter);
      var front := OneByOne(s, slugs[..last], jitter);
      assert slugs == slugs[..last] + [slugs[last]];
      forall t
        ensures Resolves(AfterOne(front.1, slugs[last], jitter), t, true) == Resolves(s, t, true)
      {
        RememberingChangesNoAnswer(front.1, slugs[last], jitter, t);
      }
      forall t
        ensures Held(AfterOne(front.1, slugs[last], jitter), t) == AfterBatch(s, slugs, t)
      {
        RememberingChangesNoAnswer(front.1, slugs[last], jitter, t);
      }
    }
  }

  // ------------------------------------------------------ what a slug resolves to

  /** The row a slug is answered from: what the cache still holds of it, an absence included, or else the table's. */
  function RowBehind(s: Store, slug: string): Option<Row>
  {
    if slug in s.entries && s.now < s.entries[slug].until then s.entries[slug].link
    else if slug in s.table then Some(s.table[slug])
    else None
  }

  /** Whether a row has an expiry, and it is past. */
  predicate IsPast(row: Row, now: int)
  {
    row.expiresAt.Some? && row.expiresAt.value < now
  }

  /** What a resolution says of the row behind a slug, one reason for each way not to answer. */
  predicate Says(r: Resolution, row: Option<Row>, now: int, declared: set<string>)
  {
    && (r == Failure(NotFound) <==> row.None?)
    && (r == Failure(Expired) <==> row.Some? && IsPast(row.value, now))
    && (r == Failure(Unknown) <==> row.Some? && !IsPast(row.value, now) && row.value.name !in declared)
    && (r.Success? <==> row.Some? && !IsPast(row.value, now) && row.value.name in declared)
    && (r.Success? ==> r.value.row == row.value)
  }

  /** Whether the cache still holds every one of `slugs`. */
  predicate AllCached(s: Store, slugs: seq<string>)
  {
    forall slug <- slugs :: slug in s.entries && s.now < s.entries[slug].until
  }

  /** A slug alone says what its row says, unless the cache does not hold it and the table does not answer. */
  lemma SlugSaysItsRow(s: Store, slug: string, answers: bool)
    ensures if answers || AllCached(s, [slug]) then Says(Resolves(s, slug, answers), RowBehind(s, slug), s.now, s.declared)
            else Resolves(s, slug, answers) == Failure(ResolveError.Backend)
  {
    assert slug in [slug];
  }

  /** Among many, a slug says what its row says, unless one of them is not held and the table does not answer. */
  lemma BatchSaysItsRows(s: Store, slugs: seq<string>, answers: bool, slug: string)
    ensures if answers || AllCached(s, slugs) then Says(BatchAnswer(s, slugs, answers, slug), RowBehind(s, slug), s.now, s.declared)
            else BatchAnswer(s, slugs, answers, slug) == Failure(ResolveError.Backend)
  {
    assert AllHeld(s, slugs) <==> AllCached(s, slugs);
  }

  lemma BatchSaysEveryRow(s: Store, slugs: seq<string>, answers: bool)
    ensures forall slug <- slugs ::
              if answers || AllCached(s, slugs) then Says(BatchAnswer(s, slugs, answers, slug), RowBehind(s, slug), s.now, s.declared)
              else BatchAnswer(s, slugs, answers, slug) == Failure(ResolveError.Backend)
  {
    forall slug | slug in slugs
      ensures if answers || AllCached(s, slugs) then Says(BatchAnswer(s, slugs, answers, slug), RowBehind(s, slug), s.now, s.declared)
              else BatchAnswer(s, slugs, answers, slug) == Failure(ResolveError.Backend)
    {
      BatchSaysItsRows(s, slugs, answers, slug);
    }
  }

  /** The slugs among `slugs` that were not held are held now, as the table has them, for ten minutes and a jitter. */
  ghost predicate Loaded(s: Store, s': Store, slugs: seq<string>, jitter: nat)
  {
    && s'.now == s.now && s'.table == s.table && s'.declared == s.declared
    && forall t ::
         if t in slugs && !AllCached(s, [t]) then
           t in s'.entries
           && s'.entries[t] == Entry(if t in s.table then Some(s.table[t]) else None, s.now + 600_000 + jitter)
         else (t in s'.entries <==> t in s.entries) && (t in s.entries ==> s'.entries[t] == s.entries[t])
  }

  /** What was remembered is read for ten minutes and its jitter, and not a moment longer. */
  lemma RememberedForTenMinutes(s: Store, slug: string, jitter: nat, later: nat)
    requires Held(s, slug) == None
    ensures var after := AfterOne(s, slug, jitter);
            Held(after.(now := s.now + later), slug)
            == if later < 600_000 + jitter then Some(if slug in s.table then Some(s.table[slug]) else None) else None
  {
  }

  // ----------------------------------------------------------------- objects

  class Resolver {
    var now: int
    var table: Table
    var entries: map<string, Entry>
    const declared: set<string>

    constructor (now: int, table: Table, declared: set<string>)
      ensures View() == Store(now, table, map[], declared)
    {
      this.now := now;
      this.table := table;
      this.declared := declared;
      entries := map[];
    }

    ghost function View(): Store
      reads this
    {
      Store(now, table, entries, declared)
    }

    /** What the cache holds of one slug. */
    method Get(slug: string) returns (r: Option<Option<Row>>)
      ensures r == Held(View(), slug)
    {
      r := if slug in entries && now < entries[slug].until then Some(entries[slug].link) else None;
    }

    /** The row of one slug, loaded when the cache does not hold it, and sometimes ahead of its lapse. */
    method CachedLink(slug: string, answers: bool, refresh: bool, jitter: nat) returns (r: Option<Option<Row>>)
      modifies `entries
      ensures r == (match Held(old(View()), slug)
                    case Some(link) => Some(link)
                    case None => if answers then Some(RowAt(table, slug)) else None)
      ensures View() == if answers && (Held(old(View()), slug).None? || refresh) then Remembered(old(View()), slug, jitter)
                        else old(View())
    {
      var held := Get(slug);
      if answers && (held.None? || refresh) {
        entries := entries[slug := Entry(if slug in table then Some(table[slug]) else None, now + VALKERY_TTL + jitter)];
      }
      r := if held.Some? then held
           else if answers then Some(if slug in table then Some(table[slug]) else None)
           else None;
    }

    /** What one slug resolves to. */
    method ResolveLink(slug: string, answers: bool, refresh: bool, jitter: nat) returns (r: Resolution)
      modifies `entries
      ensures r == Resolves(old(View()), slug, answers)
      ensures if answers || AllCached(old(View()), [slug]) then Says(r, RowBehind(old(View()), slug), now, declared)
              else r == Failure(ResolveError.Backend)
      ensures View() == if answers && (Held(old(View()), slug).None? || refresh) then Remembered(old(View()), slug, jitter)
                        else old(View())
    {
      SlugSaysItsRow(View(), slug, answers);
      var row := CachedLink(slug, answers, refresh, jitter);
      r := if row.None? then Failure(ResolveError.Backend) else OutcomeOf(row.value, now, declared);
    }

    /** The slugs asked for, each once, in the order first met. */
    method Unique(slugs: seq<string>) returns (unique: seq<string>)
      ensures forall s :: s in unique <==> s in slugs
      ensures forall i, j | 0 <= i < j < |unique| :: unique[i] != unique[j]
    {
      unique := [];
      for i := 0 to |slugs|
        invariant forall s :: s in unique <==> s in slugs[..i]
        invariant forall i, j | 0 <= i < j < |unique| :: unique[i] != unique[j]
      {
        assert slugs[..i + 1] == slugs[..i] + [slugs[i]];
        if slugs[i] !in unique {
          unique := unique + [slugs[i]];
        }
      }
      assert slugs[..|slugs|] == slugs;
    }

    /** Sorts the slugs into those the cache answers and those it does not hold. */
    method Sort(slugs: seq<string>) returns (resolved: map<string, Option<Row>>, missing: seq<string>)
      ensures forall s :: s in resolved <==> s in slugs && Held(View(), s).Some?
      ensures forall s <- resolved :: Held(View(), s) == Some(resolved[s])
      ensures forall s :: s in missing <==> s in slugs && Held(View(), s).None?
    {
      resolved, missing := map[], [];
      for i := 0 to |slugs|
        invariant forall s :: s in resolved <==> s in slugs[..i] && Held(View(), s).Some?
        invariant forall s <- resolved :: Held(View(), s) == Some(resolved[s])
        invariant forall s :: s in missing <==> s in slugs[..i] && Held(View(), s).None?
      {
        assert slugs[..i + 1] == slugs[..i] + [slugs[i]];
        var entry := Get(slugs[i]);
        if entry.None? {
          missing := missing + [slugs[i]];
        } else {
          resolved := resolved[slugs[i] := entry.value];
        }
      }
      assert slugs[..|slugs|] == slugs;
    }

    /** Loads the missing slugs from the table, and remembers each, its absence included. */
    method Load(missing: seq<string>, sorted: map<string, Option<Row>>, jitter: nat)
      returns (resolved: map<string, Option<Row>>)
      modifies `entries
      ensures forall s :: s in resolved <==> s in sorted || s in missing
      ensures forall s <- resolved :: resolved[s] == if s in missing then RowAt(table, s) else sorted[s]
      ensures forall t :: Held(View(), t) == if t in missing then Some(RowAt(table, t)) else Held(old(View()), t)
      ensures forall t <- missing :: t in entries && entries[t] == Entry(RowAt(table, t), now + VALKERY_TTL + jitter)
      ensures forall t | t !in missing :: (t in entries <==> t in old(entries)) && (t in entries ==> entries[t] == old(entries)[t])
    {
      resolved := sorted;
      for i := 0 to |missing|
        invariant forall s :: s in resolved <==> s in sorted || s in missing[..i]
        invariant forall s <- resolved :: resolved[s] == if s in missing[..i] then RowAt(table, s) else sorted[s]
        invariant forall t :: Held(View(), t) == if t in missing[..i] then Some(RowAt(table, t)) else Held(old(View()), t)
        invariant forall t <- missing[..i] :: t in entries && entries[t] == Entry(RowAt(table, t), now + VALKERY_TTL + jitter)
        invariant forall t | t !in missing[..i] ::
                    (t in entries <==> t in old(entries)) && (t in entries ==> entries[t] == old(entries)[t])
      {
        var slug := missing[i];
        assert missing[..i + 1] == missing[..i] + [slug];
        var row := if slug in table then Some(table[slug]) else None;
        resolved := resolved[slug := row];
        entries := entries[slug := Entry(row, now + VALKERY_TTL + jitter)];
      }
      assert missing[..|missing|] == missing;
    }

    /** The rows of `slugs`, loading the missing ones at once; nothing when the table does not answer for them. */
    method CachedLinks(slugs: seq<string>, answers: bool, jitter: nat) returns (r: Option<map<string, Option<Row>>>)
      modifies `entries
      ensures r.Some? <==> answers || AllHeld(old(View()), slugs)
      ensures r.Some? ==> forall s :: s in r.value <==> s in slugs
      ensures r.Some? ==> forall s <- slugs :: Some(r.value[s]) == AfterBatch(old(View()), slugs, s)
      ensures r.None? ==> View() == old(View())
      ensures r.Some? ==> forall t :: Held(View(), t) == AfterBatch(old(View()), slugs, t)
      ensures r.Some? ==> Loaded(old(View()), View(), slugs, jitter)
    {
      var resolved, missing := Sort(slugs);
      if missing != [] {
        if !answers {
          assert missing[0] in missing;
          return None;
        }
        resolved := Load(missing, resolved, jitter);
      }
      r := Some(resolved);
    }

    /** Every one of `slugs` once, each answering or saying why not. */
    method ResolveMany(slugs: seq<string>, answers: bool, jitter: nat) returns (outcomes: map<string, Resolution>)
      modifies `entries
      ensures forall s :: s in outcomes <==> s in slugs
      ensures forall s <- slugs :: outcomes[s] == BatchAnswer(old(View()), slugs, answers, s)
      ensures forall t :: Held(View(), t) == if answers then AfterBatch(old(View()), slugs, t) else Held(old(View()), t)
      ensures forall t :: Resolves(View(), t, true) == Resolves(old(View()), t, true)
      ensures forall s <- slugs ::
                if answers || AllCached(old(View()), slugs) then
                  Says(outcomes[s], RowBehind(old(View()), s), now, declared)
                else outcomes[s] == Failure(ResolveError.Backend)
      ensures if answers || AllCached(old(View()), slugs) then Loaded(old(View()), View(), slugs, jitter)
              else View() == old(View())
    {
      outcomes := map[];
      if slugs == [] {
        return;
      }
      ghost var before := View();
      BatchSaysEveryRow(before, slugs, answers);
      var unique := Unique(slugs);
      var rows := CachedLinks(unique, answers, jitter);
      assert forall t :: AfterBatch(before, unique, t) == AfterBatch(before, slugs, t);
      assert rows.Some? && !answers ==> forall t :: AfterBatch(before, slugs, t) == Held(before, t);
      assert AllHeld(before, unique) == AllHeld(before, slugs);
      for i := 0 to |unique|
        invariant forall s :: s in outcomes <==> s in unique[..i]
        invariant forall s <- unique[..i] :: outcomes[s] == BatchAnswer(before, slugs, answers, s)
      {
        assert unique[..i + 1] == unique[..i] + [unique[i]];
        assert unique[i] in unique;
        var outcome := if rows.None? then Failure(ResolveError.Backend) else OutcomeOf(rows.value[unique[i]], now, declared);
        outcomes := outcomes[unique[i] := outcome];
      }
      assert unique[..|unique|] == unique;
    }
  }
}
