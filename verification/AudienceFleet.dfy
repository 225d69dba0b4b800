/** Any number of processes over one table and one cache: what the generations keep, and when the cache tells the truth. */
module AudienceFleet {
  import opened Results
  import opened AudienceKey
  import opened AudienceCache

  /** The shared stores, and what each process remembers of the generations. */
  datatype Fleet = Fleet(shared: Shared, locals: map<nat, Locals>)

  datatype Step =
    | Advance(elapsed: nat)
    | Join(id: nat)
    | Act(id: nat, op: Op)

  /** The audiences declared, each by its feature and its key. */
  type Declarations = set<(string, string)>

  /** No audience key is declared by two features, and keys have the shape declarations give them. */
  ghost predicate Distinct(d: Declarations)
  {
    && (forall x <- d :: IsKey(x.1))
    && (forall x <- d, y <- d | x.1 == y.1 :: x.0 == y.0)
  }

  /** What a call may draw: a declared audience, and a jitter within its spread. */
  predicate Allowed(d: Declarations, op: Op)
  {
    && (op.feature, op.audience) in d
    && (op.Has? ==> op.jitter < ENTRY_SPREAD)
    && (op.AddMany? || op.Clear? ==> op.jitter < GENERATION_SPREAD)
  }

  predicate Enabled(d: Declarations, s: Fleet, step: Step)
  {
    step.Act? ==> step.id in s.locals && Allowed(d, step.op)
  }

  function Apply(s: Fleet, step: Step): Fleet
    requires step.Act? ==> step.id in s.locals
  {
    match step
    case Advance(elapsed) => s.(shared := s.shared.(now := s.shared.now + elapsed))
    case Join(id) => s.(locals := s.locals[id := map[]])
    case Act(id, op) =>
      var after := Perform(s.shared, s.locals[id], op);
      Fleet(after.shared, s.locals[id := after.locals])
  }

  // ------------------------------------------------------------- the guards

  /** The generation process `id` takes an audience to be at. */
  function ViewOf(s: Fleet, id: nat, audience: string): int
    requires id in s.locals
  {
    CurrentGeneration(s.shared, s.locals[id], audience)
  }

  /** Whether a call retires a whole audience, which is what moves its generation. */
  predicate Bumps(op: Op)
  {
    op.Clear?
    || (op.AddMany? && op.members != [] && (forall m <- op.members :: IsMember(m))
        && WrittenCount(op.members, op.refusedAt) == |op.members|)
  }

  /** The generation a clear moves to is new, and no more than a day ahead of the clock. */
  predicate BumpOk(s: Fleet, id: nat, audience: string)
    requires id in s.locals
  {
    var next := NextGeneration(s.shared, s.locals[id], audience);
    && next < s.shared.now + GENERATION_TTL
    && (audience in s.shared.generations ==> s.shared.generations[audience].value < next)
  }

  /**
   * The process writes under the generation the others read: while the record stands its own view is the
   * record's, and once the record lapsed every process agrees.
   */
  predicate WriterCurrent(s: Fleet, id: nat, audience: string)
    requires id in s.locals
  {
    if RecordLive(s.shared, audience) then ViewOf(s, id, audience) == s.shared.generations[audience].value
    else forall other <- s.locals :: ViewOf(s, other, audience) == ViewOf(s, id, audience)
  }

  /** The process reads the generation in force. Once the record lapsed, any view will do. */
  predicate ReaderCurrent(s: Fleet, id: nat, audience: string)
    requires id in s.locals
  {
    RecordLive(s.shared, audience) ==> ViewOf(s, id, audience) == s.shared.generations[audience].value
  }

  /** A bulk write that stopped after some of its chunks went through: rows moved and nothing was retired. */
  predicate HalfWritten(op: Op)
  {
    op.AddMany? && (forall m <- op.members :: IsMember(m)) && 0 < WrittenCount(op.members, op.refusedAt) < |op.members|
  }

  /** Calls that move one row and evict one entry. */
  predicate Writes(op: Op)
  {
    op.Add? || op.Remove? || op.Ttl?
  }

  /** What the generations themselves need of a step. */
  predicate Orderly(s: Fleet, step: Step)
    requires step.Act? ==> step.id in s.locals
  {
    step.Act? && Bumps(step.op) ==> BumpOk(s, step.id, step.op.audience)
  }

  /** What agreement needs on top: writers whose view is current, and no bulk write that stopped half way. */
  predicate Truthful(s: Fleet, step: Step)
    requires step.Act? ==> step.id in s.locals
  {
    && Orderly(s, step)
    && (step.Act? ==>
          && !HalfWritten(step.op)
          && (Writes(step.op) ==> WriterCurrent(s, step.id, step.op.audience)))
  }

  // -------------------------------------------------- what generations keep

  predicate LocalsOk(s: Fleet, audience: string)
  {
    forall id <- s.locals | audience in s.locals[id] ::
      var local := s.locals[id][audience];
      && 0 <= local.value && local.at <= s.shared.now
      && (audience !in s.shared.generations ==> local.value == 0)
      && (audience in s.shared.generations ==>
            var record := s.shared.generations[audience];
            && local.value <= record.value
            && (local.value == record.value ==> local.at < record.until)
            && (LocalFresh(s.shared, s.locals[id], audience) ==>
                  if RecordLive(s.shared, audience) then local.value == record.value || local.at <= record.at
                  else local.value == 0 || local.value == record.value))
  }

  predicate RecordOk(s: Shared, audience: string)
  {
    audience in s.generations ==>
      var record := s.generations[audience];
      1 <= record.value < record.until && record.at <= s.now && record.at + GENERATION_TTL <= record.until
  }

  /** No live entry stands past the record, and none of generation zero outlives it. */
  ghost predicate EntryOk(s: Shared, audience: string, generation: int, member: string)
  {
    var e := EntryAt(s, audience, generation, member);
    e.Some? ==>
      && e.value.until < s.now + ENTRY_TTL + ENTRY_SPREAD * SECOND
      && e.value.loadedAt <= s.now && e.value.until < e.value.loadedAt + ENTRY_TTL + ENTRY_SPREAD * SECOND
      && 0 <= generation
      && (audience !in s.generations ==> generation == 0)
      && (audience in s.generations ==> generation <= s.generations[audience].value)
      && (RecordLive(s, audience) && generation == 0 ==> e.value.until <= s.generations[audience].until)
  }

  /** Process `id` still works under a record that has lapsed. */
  predicate OnLapsed(s: Fleet, id: nat, audience: string)
    requires id in s.locals
  {
    && audience in s.shared.generations && !RecordLive(s.shared, audience)
    && ViewOf(s, id, audience) == s.shared.generations[audience].value
  }

  /** While every process still works under the lapsed record, generation zero holds nothing. */
  ghost predicate LapseOk(s: Fleet, audience: string)
  {
    (audience in s.shared.generations && forall id <- s.locals :: OnLapsed(s, id, audience)) && s.locals != map[] ==>
      forall member :: EntryAt(s.shared, audience, 0, member) == None
  }

  ghost predicate GenerationsOk(s: Fleet, audience: string)
  {
    && RecordOk(s.shared, audience)
    && LocalsOk(s, audience)
    && (forall generation, member :: EntryOk(s.shared, audience, generation, member))
    && LapseOk(s, audience)
  }

  // -------------------------------------------------------- the cache's truth

  /** An entry answers as the table does, now and at every later moment nothing is written. */
  predicate Matches(cached: Option<Row>, row: Option<Row>, now: int)
  {
    cached == row || (cached.Some? && HasExpired(cached.value, now) && row == None)
  }

  /** Every live entry of one generation matches the table. */
  ghost predicate TrueUnder(s: Shared, feature: string, audience: string, generation: int)
  {
    forall member ::
      var e := EntryAt(s, audience, generation, member);
      e.Some? ==> Matches(e.value.row, RowAt(s.table, feature, audience, member), s.now)
  }

  /** The generations somebody may still read are true. */
  ghost predicate CacheTrue(s: Fleet, feature: string, audience: string)
  {
    if RecordLive(s.shared, audience) then TrueUnder(s.shared, feature, audience, s.shared.generations[audience].value)
    else
      && TrueUnder(s.shared, feature, audience, 0)
      && (forall id <- s.locals | OnLapsed(s, id, audience) ::
            TrueUnder(s.shared, feature, audience, s.shared.generations[audience].value))
  }

  // ------------------------------------------------------------ entry frames

  lemma FillFrame(s: Shared, feature: string, audience: string, generation: int, member: string, jitter: nat,
                  audience': string, generation': int, member': string)
    requires IsKey(audience) && IsKey(audience')
    ensures EntryAt(Filled(s, feature, audience, generation, member, jitter), audience', generation', member')
            == if audience == audience' && generation == generation' && member == member'
               then Some(Entry(RowAt(s.table, feature, audience, member), s.now + ENTRY_TTL + jitter * SECOND, s.now))
               else EntryAt(s, audience', generation', member')
  {
    EntryInjective(audience, generation, member, audience', generation', member');
  }

  lemma EvictFrame(s: Shared, audience: string, generation: int, member: string,
                   audience': string, generation': int, member': string)
    requires IsKey(audience) && IsKey(audience')
    ensures EntryAt(Evicted(s, audience, generation, member), audience', generation', member')
            == if audience == audience' && generation == generation' && member == member' then None
               else EntryAt(s, audience', generation', member')
  {
    EntryInjective(audience, generation, member, audience', generation', member');
  }

  /** Asking leaves the membership cached for ten minutes and its jitter, when it was not, or was refreshed ahead. */
  lemma AskingFillsTheEntry(s: Shared, locals: Locals, op: Op)
    requires op.Has? && IsMember(op.member) && IsKey(op.audience)
    ensures var g := CurrentGeneration(s, locals, op.audience);
            var was := EntryAt(s, op.audience, g, op.member);
            EntryAt(Perform(s, locals, op).shared, op.audience, g, op.member)
            == if was.Some? && !op.refresh then was
               else Some(Entry(RowAt(s.table, op.feature, op.audience, op.member), s.now + 600_000 + 1_000 * op.jitter, s.now))
  {
    var g := CurrentGeneration(s, locals, op.audience);
    FillFrame(s, op.feature, op.audience, g, op.member, op.jitter, op.audience, g, op.member);
  }

  // ---------------------------------------------------------------- one step

  /** Asking for the generation, which remembers what it read. */
  function Asked(s: Fleet, id: nat, audience: string): Fleet
    requires id in s.locals
  {
    s.(locals := s.locals[id := AfterAsking(s.shared, s.locals[id], audience)])
  }

  lemma AskKeepsViews(s: Fleet, id: nat, audience: string)
    requires id in s.locals && LocalsOk(s, audience)
    ensures forall other <- s.locals :: ViewOf(Asked(s, id, audience), other, audience) == ViewOf(s, other, audience)
  {
  }

  lemma AskKeeps(s: Fleet, id: nat, audience: string)
    requires id in s.locals && GenerationsOk(s, audience)
    ensures GenerationsOk(Asked(s, id, audience), audience)
  {
    AskKeepsViews(s, id, audience);
    var s' := Asked(s, id, audience);
    assert s'.locals.Keys == s.locals.Keys;
    if audience in s.shared.generations && s'.locals != map[] && forall other <- s'.locals :: OnLapsed(s', other, audience) {
      assert forall other <- s.locals :: OnLapsed(s, other, audience) by {
        forall other <- s.locals
          ensures OnLapsed(s, other, audience)
        {
          assert OnLapsed(s', other, audience);
        }
      }
    }
  }

  lemma AskKeepsTruth(s: Fleet, id: nat, feature: string, audience: string)
    requires id in s.locals && LocalsOk(s, audience) && CacheTrue(s, feature, audience)
    ensures CacheTrue(Asked(s, id, audience), feature, audience)
  {
    AskKeepsViews(s, id, audience);
  }

  /** A membership filled under the generation its process works under. */
  lemma FillKeeps(s: Fleet, id: nat, feature: string, audience: string, member: string, jitter: nat)
    requires IsKey(audience) && jitter < ENTRY_SPREAD && id in s.locals
    requires GenerationsOk(s, audience) && LocalFresh(s.shared, s.locals[id], audience)
    ensures var s' := s.(shared := Filled(s.shared, feature, audience, ViewOf(s, id, audience), member, jitter));
            GenerationsOk(s', audience) && (CacheTrue(s, feature, audience) ==> CacheTrue(s', feature, audience))
  {
    var view := ViewOf(s, id, audience);
    var s' := s.(shared := Filled(s.shared, feature, audience, view, member, jitter));
    forall g, m
      ensures EntryAt(s'.shared, audience, g, m)
              == if g == view && m == member
                 then Some(Entry(RowAt(s.shared.table, feature, audience, member),
                                 s.shared.now + ENTRY_TTL + jitter * SECOND, s.shared.now))
                 else EntryAt(s.shared, audience, g, m)
    {
      FillFrame(s.shared, feature, audience, view, member, jitter, audience, g, m);
    }
    assert forall other <- s.locals :: ViewOf(s', other, audience) == ViewOf(s, other, audience);
    forall g, m
      ensures EntryOk(s'.shared, audience, g, m)
    {
      assert EntryOk(s.shared, audience, g, m);
    }
    assert forall other <- s.locals :: OnLapsed(s', other, audience) == OnLapsed(s, other, audience);
    if view == 0 {
      assert !OnLapsed(s', id, audience);
    }
  }

  /** One entry evicted, rows of the table aside. */
  lemma EvictKeeps(s: Fleet, audience: string, generation: int, member: string, table: Table)
    requires IsKey(audience) && GenerationsOk(s, audience)
    ensures GenerationsOk(s.(shared := Evicted(s.shared.(table := table), audience, generation, member)), audience)
  {
    var s' := s.(shared := Evicted(s.shared.(table := table), audience, generation, member));
    forall g, m
      ensures EntryAt(s'.shared, audience, g, m)
              == if g == generation && m == member then None else EntryAt(s.shared, audience, g, m)
    {
      EvictFrame(s.shared.(table := table), audience, generation, member, audience, g, m);
    }
    forall g, m
      ensures EntryOk(s'.shared, audience, g, m)
    {
      assert EntryOk(s.shared, audience, g, m);
    }
    assert forall other <- s.locals :: OnLapsed(s', other, audience) == OnLapsed(s, other, audience);
  }

  /** A row moved and its entry evicted by a process whose view is current leaves the cache true. */
  lemma WriteKeepsTruth(s: Fleet, id: nat, feature: string, audience: string, member: string, table: Table)
    requires IsKey(audience) && id in s.locals && GenerationsOk(s, audience) && CacheTrue(s, feature, audience)
    requires WriterCurrent(s, id, audience)
    requires forall m | m != member :: RowAt(table, feature, audience, m) == RowAt(s.shared.table, feature, audience, m)
    ensures CacheTrue(s.(shared := Evicted(s.shared.(table := table), audience, ViewOf(s, id, audience), member)),
                      feature, audience)
  {
    var view := ViewOf(s, id, audience);
    var s' := s.(shared := Evicted(s.shared.(table := table), audience, view, member));
    forall g, m
      ensures EntryAt(s'.shared, audience, g, m)
              == if g == view && m == member then None else EntryAt(s.shared, audience, g, m)
    {
      EvictFrame(s.shared.(table := table), audience, view, member, audience, g, m);
    }
    assert forall other <- s.locals :: OnLapsed(s', other, audience) == OnLapsed(s, other, audience);
    if !RecordLive(s.shared, audience) && view != 0 {
      assert forall other <- s.locals :: OnLapsed(s, other, audience);
    }
  }

  /** Expired rows removed change no answer, and no entry. */
  lemma ReapKeeps(s: Fleet, feature: string, audience: string)
    requires GenerationsOk(s, audience)
    ensures var s' := s.(shared := s.shared.(table := Reaped(s.shared.table, feature, audience, s.shared.now)));
            GenerationsOk(s', audience) && (CacheTrue(s, feature, audience) ==> CacheTrue(s', feature, audience))
  {
    var s' := s.(shared := s.shared.(table := Reaped(s.shared.table, feature, audience, s.shared.now)));
    SameGenerations(s, s', audience);
  }

  /** A change of the table alone changes nothing the generations keep. */
  lemma SameGenerations(s: Fleet, s': Fleet, audience: string)
    requires GenerationsOk(s, audience)
    requires s'.locals == s.locals && s'.shared == s.shared.(table := s'.shared.table)
    ensures GenerationsOk(s', audience)
    ensures forall g, m :: EntryAt(s'.shared, audience, g, m) == EntryAt(s.shared, audience, g, m)
    ensures forall id <- s.locals :: OnLapsed(s', id, audience) == OnLapsed(s, id, audience)
  {
    assert forall g, m :: EntryAt(s'.shared, audience, g, m) == EntryAt(s.shared, audience, g, m);
    forall g, m
      ensures EntryOk(s'.shared, audience, g, m)
    {
      assert EntryOk(s.shared, audience, g, m);
    }
    assert forall id <- s.locals :: ViewOf(s', id, audience) == ViewOf(s, id, audience);
    assert forall id <- s.locals :: OnLapsed(s', id, audience) == OnLapsed(s, id, audience);
  }

  /** The state a bump leaves: a new record, remembered by the process that wrote it. */
  function AfterBump(s: Fleet, id: nat, audience: string, table: Table, jitter: nat): Fleet
    requires id in s.locals
  {
    var next := NextGeneration(s.shared, s.locals[id], audience);
    Fleet(Bumped(s.shared.(table := table), audience, next, jitter),
          s.locals[id := s.locals[id][audience := LocalGeneration(next, s.shared.now)]])
  }

  /** Whatever rows it changed, a bump leaves a generation that holds no entry at all, and so a true one. */
  lemma BumpKeeps(s: Fleet, id: nat, feature: string, audience: string, table: Table, jitter: nat)
    requires id in s.locals && GenerationsOk(s, audience) && BumpOk(s, id, audience)
    ensures var s' := AfterBump(s, id, audience, table, jitter);
            GenerationsOk(s', audience) && CacheTrue(s', feature, audience)
  {
    var s' := AfterBump(s, id, audience, table, jitter);
    var next := NextGeneration(s.shared, s.locals[id], audience);
    assert 0 <= ViewOf(s, id, audience);
    assert RecordLive(s'.shared, audience);
    forall g, m
      ensures EntryOk(s'.shared, audience, g, m)
    {
      assert EntryOk(s.shared, audience, g, m);
      assert EntryAt(s'.shared, audience, g, m) == EntryAt(s.shared, audience, g, m);
    }
    forall m
      ensures EntryAt(s'.shared, audience, next, m) == None
    {
      assert EntryOk(s.shared, audience, next, m);
      assert EntryAt(s'.shared, audience, next, m) == EntryAt(s.shared, audience, next, m);
    }
  }

  /** Time makes entries go, and a process that works under a lapsed record did so before, or saw it live. */
  lemma AdvanceOnlyForgets(s: Fleet, elapsed: nat, audience: string)
    requires RecordOk(s.shared, audience)
    ensures var s' := Apply(s, Advance(elapsed));
            && (forall g, m :: EntryAt(s'.shared, audience, g, m) in {None, EntryAt(s.shared, audience, g, m)})
            && (RecordLive(s'.shared, audience) ==> RecordLive(s.shared, audience))
            && (forall id <- s.locals | OnLapsed(s', id, audience) :: OnLapsed(s, id, audience) || RecordLive(s.shared, audience))
  {
  }

  /** A record that lapses takes every entry of generation zero with it. */
  lemma LapseEmptiesZero(s: Fleet, elapsed: nat, audience: string)
    requires GenerationsOk(s, audience)
    requires RecordLive(s.shared, audience) && !RecordLive(Apply(s, Advance(elapsed)).shared, audience)
    ensures forall m :: EntryAt(Apply(s, Advance(elapsed)).shared, audience, 0, m) == None
  {
    forall m
      ensures EntryAt(Apply(s, Advance(elapsed)).shared, audience, 0, m) == None
    {
      assert EntryOk(s.shared, audience, 0, m);
    }
  }

  lemma AdvanceKeepsGenerations(s: Fleet, elapsed: nat, audience: string)
    requires GenerationsOk(s, audience)
    ensures GenerationsOk(Apply(s, Advance(elapsed)), audience)
  {
    var s' := Apply(s, Advance(elapsed));
    AdvanceOnlyForgets(s, elapsed, audience);
    forall g, m
      ensures EntryOk(s'.shared, audience, g, m)
    {
      assert EntryOk(s.shared, audience, g, m);
    }
    if audience in s.shared.generations && s'.locals != map[] && (forall id <- s'.locals :: OnLapsed(s', id, audience)) {
      if RecordLive(s.shared, audience) {
        LapseEmptiesZero(s, elapsed, audience);
      } else {
        assert forall id <- s.locals :: OnLapsed(s, id, audience);
      }
    }
  }

  lemma AdvanceKeepsTruth(s: Fleet, elapsed: nat, feature: string, audience: string)
    requires GenerationsOk(s, audience) && CacheTrue(s, feature, audience)
    ensures CacheTrue(Apply(s, Advance(elapsed)), feature, audience)
  {
    var s' := Apply(s, Advance(elapsed));
    AdvanceOnlyForgets(s, elapsed, audience);
    if RecordLive(s.shared, audience) && !RecordLive(s'.shared, audience) {
      LapseEmptiesZero(s, elapsed, audience);
    }
  }

  lemma AdvanceKeeps(s: Fleet, elapsed: nat, feature: string, audience: string)
    requires GenerationsOk(s, audience)
    ensures var s' := Apply(s, Advance(elapsed));
            GenerationsOk(s', audience) && (CacheTrue(s, feature, audience) ==> CacheTrue(s', feature, audience))
  {
    AdvanceKeepsGenerations(s, elapsed, audience);
    if CacheTrue(s, feature, audience) {
      AdvanceKeepsTruth(s, elapsed, feature, audience);
    }
  }

  lemma JoinKeeps(s: Fleet, id: nat, feature: string, audience: string)
    requires GenerationsOk(s, audience)
    ensures var s' := Apply(s, Join(id));
            GenerationsOk(s', audience) && (CacheTrue(s, feature, audience) ==> CacheTrue(s', feature, audience))
  {
    var s' := Apply(s, Join(id));
    assert !OnLapsed(s', id, audience);
    forall other <- s'.locals | OnLapsed(s', other, audience)
      ensures OnLapsed(s, other, audience)
    {
    }
  }

  // ------------------------------------------------------- other audiences

  /** Nothing this audience is answered from differs between two states. */
  ghost predicate Untouched(s: Fleet, s': Fleet, feature: string, audience: string)
  {
    && s'.shared.now == s.shared.now && s'.locals.Keys == s.locals.Keys
    && (audience in s.shared.generations <==> audience in s'.shared.generations)
    && (audience in s.shared.generations ==> s'.shared.generations[audience] == s.shared.generations[audience])
    && (forall id <- s.locals :: audience in s.locals[id] <==> audience in s'.locals[id])
    && (forall id <- s.locals | audience in s.locals[id] :: s'.locals[id][audience] == s.locals[id][audience])
    && (forall g, m :: EntryAt(s'.shared, audience, g, m) == EntryAt(s.shared, audience, g, m))
    && (forall m :: RowAt(s'.shared.table, feature, audience, m) == RowAt(s.shared.table, feature, audience, m))
  }

  lemma UntouchedViews(s: Fleet, s': Fleet, feature: string, audience: string)
    requires Untouched(s, s', feature, audience)
    ensures RecordLive(s'.shared, audience) == RecordLive(s.shared, audience)
    ensures forall id <- s.locals ::
              ViewOf(s', id, audience) == ViewOf(s, id, audience) && OnLapsed(s', id, audience) == OnLapsed(s, id, audience)
  {
  }

  lemma UntouchedKeepsGenerations(s: Fleet, s': Fleet, feature: string, audience: string)
    requires GenerationsOk(s, audience) && Untouched(s, s', feature, audience)
    ensures GenerationsOk(s', audience)
  {
    UntouchedViews(s, s', feature, audience);
    forall g, m
      ensures EntryOk(s'.shared, audience, g, m)
    {
      assert EntryOk(s.shared, audience, g, m);
    }
  }

  lemma UntouchedKeeps(s: Fleet, s': Fleet, feature: string, audience: string)
    requires GenerationsOk(s, audience) && Untouched(s, s', feature, audience)
    ensures GenerationsOk(s', audience)
    ensures CacheTrue(s, feature, audience) ==> CacheTrue(s', feature, audience)
  {
    UntouchedKeepsGenerations(s, s', feature, audience);
    UntouchedViews(s, s', feature, audience);
  }

  // -------------------------------------------------------------- every step

  lemma ReadKeeps(s: Fleet, id: nat, op: Op)
    requires id in s.locals && op.Has? && op.jitter < ENTRY_SPREAD && IsKey(op.audience)
    requires GenerationsOk(s, op.audience)
    ensures var s' := Apply(s, Act(id, op));
            && GenerationsOk(s', op.audience)
            && (CacheTrue(s, op.feature, op.audience) ==> CacheTrue(s', op.feature, op.audience))
  {
    var s' := Apply(s, Act(id, op));
    if !IsMember(op.member) {
      assert s' == s;
    } else {
      var asked := Asked(s, id, op.audience);
      AskKeeps(s, id, op.audience);
      AskKeepsViews(s, id, op.audience);
      if CacheTrue(s, op.feature, op.audience) {
        AskKeepsTruth(s, id, op.feature, op.audience);
      }
      FillKeeps(asked, id, op.feature, op.audience, op.member, op.jitter);
    }
  }

  /** The table a call that moves one row leaves. */
  function WrittenTable(s: Shared, op: Op): Table
    requires Writes(op)
  {
    if op.refused then s.table
    else if op.Add? then Put(s.table, op.feature, op.audience, op.member, Row(op.expiresAt))
    else if op.Remove? then s.table - {Pk(op.feature, op.audience, op.member)}
    else if TableHolds(s, op.feature, op.audience, op.member)
    then Put(s.table, op.feature, op.audience, op.member, Row(op.expiresAt))
    else s.table
  }

  /** A call that moves one row evicts its entry under the view of its process, and moves no other row. */
  lemma WriteIs(s: Fleet, id: nat, op: Op)
    requires id in s.locals && Writes(op) && IsMember(op.member)
    ensures Apply(s, Act(id, op))
            == Asked(s, id, op.audience).(shared := Evicted(s.shared.(table := WrittenTable(s.shared, op)), op.audience,
                                                            ViewOf(s, id, op.audience), op.member))
    ensures forall f, a, m | Pk(f, a, m) != Pk(op.feature, op.audience, op.member) ::
              RowAt(WrittenTable(s.shared, op), f, a, m) == RowAt(s.shared.table, f, a, m)
  {
    if op.Remove? && !op.refused && Pk(op.feature, op.audience, op.member) !in s.shared.table {
      assert WrittenTable(s.shared, op) == s.shared.table;
    }
  }

  lemma WriteKeepsGenerations(s: Fleet, id: nat, op: Op)
    requires id in s.locals && Writes(op) && IsKey(op.audience) && GenerationsOk(s, op.audience)
    ensures GenerationsOk(Apply(s, Act(id, op)), op.audience)
  {
    if IsMember(op.member) {
      AskKeeps(s, id, op.audience);
      WriteIs(s, id, op);
      EvictKeeps(Asked(s, id, op.audience), op.audience, ViewOf(s, id, op.audience), op.member, WrittenTable(s.shared, op));
    } else {
      assert Apply(s, Act(id, op)) == s;
    }
  }

  lemma WriteKeepsTheCacheTrue(s: Fleet, id: nat, op: Op)
    requires id in s.locals && Writes(op) && IsKey(op.audience) && GenerationsOk(s, op.audience)
    requires CacheTrue(s, op.feature, op.audience) && WriterCurrent(s, id, op.audience)
    ensures CacheTrue(Apply(s, Act(id, op)), op.feature, op.audience)
  {
    if IsMember(op.member) {
      AskKeeps(s, id, op.audience);
      AskKeepsViews(s, id, op.audience);
      AskKeepsTruth(s, id, op.feature, op.audience);
      WriteIs(s, id, op);
      WriteKeepsTruth(Asked(s, id, op.audience), id, op.feature, op.audience, op.member, WrittenTable(s.shared, op));
    } else {
      assert Apply(s, Act(id, op)) == s;
    }
  }

  lemma WriteKeeps(s: Fleet, id: nat, op: Op)
    requires id in s.locals && Writes(op) && IsKey(op.audience)
    requires GenerationsOk(s, op.audience)
    ensures var s' := Apply(s, Act(id, op));
            && GenerationsOk(s', op.audience)
            && (CacheTrue(s, op.feature, op.audience) && WriterCurrent(s, id, op.audience) ==>
                  CacheTrue(s', op.feature, op.audience))
  {
    WriteKeepsGenerations(s, id, op);
    if CacheTrue(s, op.feature, op.audience) && WriterCurrent(s, id, op.audience) {
      WriteKeepsTheCacheTrue(s, id, op);
    }
  }

  lemma BulkKeeps(s: Fleet, id: nat, op: Op)
    requires id in s.locals && (op.AddMany? || op.Clear?)
    requires GenerationsOk(s, op.audience)
    requires Bumps(op) ==> BumpOk(s, id, op.audience)
    ensures var s' := Apply(s, Act(id, op));
            && GenerationsOk(s', op.audience)
            && (CacheTrue(s, op.feature, op.audience) && !HalfWritten(op) ==> CacheTrue(s', op.feature, op.audience))
  {
    var s' := Apply(s, Act(id, op));
    if Bumps(op) {
      var table := if op.Clear? then (if op.refused then s.shared.table else Dropped(s.shared.table, op.feature, op.audience))
                   else PutAll(s.shared.table, op.feature, op.audience, op.members, Row(op.expiresAt));
      assert op.AddMany? ==> op.members[..|op.members|] == op.members;
      BumpKeeps(s, id, op.feature, op.audience, table, op.jitter);
      assert s' == AfterBump(s, id, op.audience, table, op.jitter);
    } else {
      assert s'.locals == s.locals;
      SameGenerations(s, s', op.audience);
      assert !HalfWritten(op) ==> s'.shared == s.shared;
    }
  }

  lemma ActKeeps(d: Declarations, s: Fleet, id: nat, op: Op)
    requires Distinct(d) && Enabled(d, s, Act(id, op)) && GenerationsOk(s, op.audience) && Orderly(s, Act(id, op))
    ensures var s' := Apply(s, Act(id, op));
            && GenerationsOk(s', op.audience)
            && (CacheTrue(s, op.feature, op.audience) && Truthful(s, Act(id, op)) ==> CacheTrue(s', op.feature, op.audience))
  {
    assert IsKey((op.feature, op.audience).1);
    if op.Has? {
      ReadKeeps(s, id, op);
    } else if Writes(op) {
      WriteKeeps(s, id, op);
    } else if op.Reap? {
      ReapKeeps(s, op.feature, op.audience);
      assert Apply(s, Act(id, op)).locals == s.locals;
    } else {
      BulkKeeps(s, id, op);
    }
  }

  /** A call on one audience moves no row of another, and no entry of another either. */
  lemma ActLeavesRows(s: Fleet, id: nat, op: Op, feature: string, audience: string, m: string)
    requires id in s.locals && audience != op.audience
    ensures RowAt(Apply(s, Act(id, op)).shared.table, feature, audience, m) == RowAt(s.shared.table, feature, audience, m)
  {
    if op.AddMany? {
      var count := WrittenCount(op.members, op.refusedAt);
      PutAllWritesEachMember(s.shared.table, op.feature, op.audience, op.members[..count], Row(op.expiresAt));
    }
  }

  lemma ActLeavesEntries(s: Fleet, id: nat, op: Op, audience: string, g: int, m: string)
    requires id in s.locals && audience != op.audience && IsKey(op.audience) && IsKey(audience)
    ensures EntryAt(Apply(s, Act(id, op)).shared, audience, g, m) == EntryAt(s.shared, audience, g, m)
  {
    var view := ViewOf(s, id, op.audience);
    if op.Has? && IsMember(op.member) {
      FillFrame(s.shared, op.feature, op.audience, view, op.member, op.jitter, audience, g, m);
    } else if Writes(op) && IsMember(op.member) {
      WriteIs(s, id, op);
      EvictFrame(s.shared.(table := WrittenTable(s.shared, op)), op.audience, view, op.member, audience, g, m);
    }
  }

  /** A call on one audience leaves every other declared audience as it was. */
  lemma ActLeavesOthers(d: Declarations, s: Fleet, id: nat, op: Op, feature: string, audience: string)
    requires Distinct(d) && Enabled(d, s, Act(id, op))
    requires (feature, audience) in d && audience != op.audience
    ensures Untouched(s, Apply(s, Act(id, op)), feature, audience)
  {
    var s' := Apply(s, Act(id, op));
    assert IsKey((op.feature, op.audience).1) && IsKey((feature, audience).1);
    forall g, m
      ensures EntryAt(s'.shared, audience, g, m) == EntryAt(s.shared, audience, g, m)
    {
      ActLeavesEntries(s, id, op, audience, g, m);
    }
    forall m
      ensures RowAt(s'.shared.table, feature, audience, m) == RowAt(s.shared.table, feature, audience, m)
    {
      ActLeavesRows(s, id, op, feature, audience, m);
    }
  }

  ghost predicate AllGenerationsOk(d: Declarations, s: Fleet)
  {
    forall x <- d :: GenerationsOk(s, x.1)
  }

  ghost predicate AllTrue(d: Declarations, s: Fleet)
  {
    forall x <- d :: CacheTrue(s, x.0, x.1)
  }

  lemma StepKeeps(d: Declarations, s: Fleet, step: Step)
    requires Distinct(d) && Enabled(d, s, step) && Orderly(s, step) && AllGenerationsOk(d, s)
    ensures AllGenerationsOk(d, Apply(s, step))
    ensures AllTrue(d, s) && Truthful(s, step) ==> AllTrue(d, Apply(s, step))
  {
    var s' := Apply(s, step);
    forall x <- d
      ensures GenerationsOk(s', x.1)
      ensures AllTrue(d, s) && Truthful(s, step) ==> CacheTrue(s', x.0, x.1)
    {
      assert GenerationsOk(s, x.1);
      assert AllTrue(d, s) ==> CacheTrue(s, x.0, x.1);
      match step
      case Advance(elapsed) => AdvanceKeeps(s, elapsed, x.0, x.1);
      case Join(id) => JoinKeeps(s, id, x.0, x.1);
      case Act(id, op) =>
        if x.1 == op.audience {
          assert x == (op.feature, op.audience);
          ActKeeps(d, s, id, op);
        } else {
          ActLeavesOthers(d, s, id, op, x.0, x.1);
          UntouchedKeeps(s, s', x.0, x.1);
        }
    }
  }

  // -------------------------------------------------------------------- runs

  /** Each step of the run is allowed where it is taken, and no generation outruns the clock. */
  ghost predicate OrderlyRun(d: Declarations, s: Fleet, run: seq<Step>)
    decreases |run|
  {
    run == [] || (Enabled(d, s, run[0]) && Orderly(s, run[0]) && OrderlyRun(d, Apply(s, run[0]), run[1..]))
  }

  /** Moreover every write is made by a process whose view is current, and no bulk write stops half way. */
  ghost predicate TruthfulRun(d: Declarations, s: Fleet, run: seq<Step>)
    decreases |run|
  {
    run == [] || (Enabled(d, s, run[0]) && Truthful(s, run[0]) && TruthfulRun(d, Apply(s, run[0]), run[1..]))
  }

  ghost predicate Performable(s: Fleet, run: seq<Step>)
    decreases |run|
  {
    run == [] || ((run[0].Act? ==> run[0].id in s.locals) && Performable(Apply(s, run[0]), run[1..]))
  }

  function Final(s: Fleet, run: seq<Step>): Fleet
    requires Performable(s, run)
    decreases |run|
  {
    if run == [] then s else Final(Apply(s, run[0]), run[1..])
  }

  /** A table of any rows, before anything was cached and before any process came up. */
  function Uncached(now: int, table: Table): Fleet
  {
    Fleet(Shared(now, table, map[], map[]), map[])
  }

  lemma UncachedIsTrue(d: Declarations, now: int, table: Table)
    ensures AllGenerationsOk(d, Uncached(now, table)) && AllTrue(d, Uncached(now, table))
  {
    var s := Uncached(now, table);
    assert forall audience, g, m :: EntryAt(s.shared, audience, g, m) == None;
  }

  lemma {:induction false} OrderlyRunKeeps(d: Declarations, s: Fleet, run: seq<Step>)
    requires Distinct(d) && OrderlyRun(d, s, run) && AllGenerationsOk(d, s)
    ensures Performable(s, run) && AllGenerationsOk(d, Final(s, run))
    decreases |run|
  {
    if run != [] {
      StepKeeps(d, s, run[0]);
      OrderlyRunKeeps(d, Apply(s, run[0]), run[1..]);
    }
  }

  lemma {:induction false} TruthfulRunKeeps(d: Declarations, s: Fleet, run: seq<Step>)
    requires Distinct(d) && TruthfulRun(d, s, run) && AllGenerationsOk(d, s) && AllTrue(d, s)
    ensures Performable(s, run) && AllGenerationsOk(d, Final(s, run)) && AllTrue(d, Final(s, run))
    decreases |run|
  {
    if run != [] {
      StepKeeps(d, s, run[0]);
      TruthfulRunKeeps(d, Apply(s, run[0]), run[1..]);
    }
  }
}
