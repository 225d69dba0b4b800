/** Memberships behind a generation-tagged cache: the table, the shared stores, and what each operation makes of them. */
module AudienceCache {
  import opened Results
  import opened AudienceKey

  // Durations, in milliseconds. A written entry lives its ttl and up to a tenth more.
  const ENTRY_TTL := 600_000
  const ENTRY_SPREAD: nat := 60
  const GENERATION_TTL := 86_400_000
  const GENERATION_SPREAD: nat := 8_640
  const LOCAL_GENERATION_TTL := 2_000
  const SECOND := 1_000
  const BULK_CHUNK_SIZE: nat := 1_000

  /** The primary key of one membership row. */
  datatype Pk = Pk(feature: string, audience: string, member: string)

  /** What a membership row holds beside its key: when it drops, none for never. */
  datatype Row = Row(expiresAt: Option<int>)

  type Table = map<Pk, Row>

  /** One cached membership, its absence included. `loadedAt` is history: no operation reads it. */
  datatype Entry = Entry(row: Option<Row>, until: int, loadedAt: int)

  /** One generation record of the shared cache. `at` is history: no operation reads it. */
  datatype Generation = Generation(value: int, until: int, at: int)

  /** A generation one process remembers, and when it read it. */
  datatype LocalGeneration = LocalGeneration(value: int, at: int)

  /** What every process shares: the clock, the table and the two caches. */
  datatype Shared = Shared(now: int, table: Table, entries: map<string, Entry>, generations: map<string, Generation>)

  type Locals = map<string, LocalGeneration>

  // ------------------------------------------------------------------- reads

  /** Whether a membership row has stopped counting. */
  predicate HasExpired(row: Row, now: int)
  {
    row.expiresAt.Some? && row.expiresAt.value <= now
  }

  function RowAt(table: Table, feature: string, audience: string, member: string): Option<Row>
  {
    var pk := Pk(feature, audience, member);
    if pk in table then Some(table[pk]) else None
  }

  /** The plain table's own answer to "does `member` belong". */
  predicate TableHolds(s: Shared, feature: string, audience: string, member: string)
  {
    var row := RowAt(s.table, feature, audience, member);
    row.Some? && !HasExpired(row.value, s.now)
  }

  /** The live cache entry of one membership, if there is one. */
  function EntryAt(s: Shared, audience: string, generation: int, member: string): Option<Entry>
  {
    var key := EntryOf(audience, generation, member);
    if key in s.entries && s.now < s.entries[key].until then Some(s.entries[key]) else None
  }

  predicate RecordLive(s: Shared, audience: string)
  {
    audience in s.generations && s.now < s.generations[audience].until
  }

  predicate LocalFresh(s: Shared, locals: Locals, audience: string)
  {
    audience in locals && s.now - locals[audience].at < LOCAL_GENERATION_TTL
  }

  /** The generation a process takes `audience` to be at: its fresh local copy, the record, or zero. */
  function CurrentGeneration(s: Shared, locals: Locals, audience: string): int
  {
    if LocalFresh(s, locals, audience) then locals[audience].value
    else if RecordLive(s, audience) then s.generations[audience].value
    else 0
  }

  /** What a process remembers once it has asked. */
  function AfterAsking(s: Shared, locals: Locals, audience: string): Locals
  {
    if LocalFresh(s, locals, audience) then locals
    else locals[audience := LocalGeneration(CurrentGeneration(s, locals, audience), s.now)]
  }

  // ----------------------------------------------------------- cache writes

  function Filled(s: Shared, feature: string, audience: string, generation: int, member: string, jitter: nat): Shared
  {
    var entry := Entry(RowAt(s.table, feature, audience, member), s.now + ENTRY_TTL + jitter * SECOND, s.now);
    s.(entries := s.entries[EntryOf(audience, generation, member) := entry])
  }

  function Evicted(s: Shared, audience: string, generation: int, member: string): Shared
  {
    s.(entries := s.entries - {EntryOf(audience, generation, member)})
  }

  function MaxOf(a: int, b: int): int
  {
    if a < b then b else a
  }

  /** The generation a clear moves to: the clock, and always past the one in force. */
  function NextGeneration(s: Shared, locals: Locals, audience: string): int
  {
    MaxOf(s.now, CurrentGeneration(s, locals, audience) + 1)
  }

  function Bumped(s: Shared, audience: string, next: int, jitter: nat): Shared
  {
    s.(generations := s.generations[audience := Generation(next, s.now + GENERATION_TTL + jitter * SECOND, s.now)])
  }

  // ----------------------------------------------------------- table writes

  function Put(table: Table, feature: string, audience: string, member: string, row: Row): Table
  {
    table[Pk(feature, audience, member) := row]
  }

  function PutAll(table: Table, feature: string, audience: string, members: seq<string>, row: Row): Table
  {
    if members == [] then table
    else
      var last := |members| - 1;
      Put(PutAll(table, feature, audience, members[..last], row), feature, audience, members[last], row)
  }

  /** A bulk upsert writes the row of every named member, and no other row. */
  lemma {:induction false} PutAllWritesEachMember(table: Table, feature: string, audience: string, members: seq<string>, row: Row)
    ensures var r := PutAll(table, feature, audience, members, row);
            forall pk: Pk :: (if pk.feature == feature && pk.audience == audience && pk.member in members
                              then pk in r && r[pk] == row
                              else (pk in r <==> pk in table) && (pk in r ==> r[pk] == table[pk]))
  {
    if members != [] {
      var last := |members| - 1;
      PutAllWritesEachMember(table, feature, audience, members[..last], row);
      assert members == members[..last] + [members[last]];
    }
  }

  /** How many members of a bulk write are in the table once chunk `refusedAt` was refused, all when none was. */
  function WrittenCount(members: seq<string>, refusedAt: Option<nat>): (n: nat)
    ensures n <= |members|
  {
    if refusedAt.Some? && refusedAt.value * BULK_CHUNK_SIZE < |members| then refusedAt.value * BULK_CHUNK_SIZE
    else |members|
  }

  /** The rows of one audience, dropped. */
  function Dropped(table: Table, feature: string, audience: string): Table
  {
    map pk | pk in table && !(pk.feature == feature && pk.audience == audience) :: table[pk]
  }

  predicate Reapable(table: Table, feature: string, audience: string, now: int, pk: Pk)
    requires pk in table
  {
    pk.feature == feature && pk.audience == audience && HasExpired(table[pk], now)
  }

  function Reaped(table: Table, feature: string, audience: string, now: int): Table
  {
    map pk | pk in table && !Reapable(table, feature, audience, now, pk) :: table[pk]
  }

  // -------------------------------------------------------------- operations

  /**
   * One call on one declared audience. What the backend decides is in the call: the jitter a write drew,
   * whether a hit was also refreshed ahead of its expiry, and which write was refused, if any.
   */
  datatype Op =
    | Has(feature: string, audience: string, member: string, jitter: nat, refresh: bool)
    | Add(feature: string, audience: string, member: string, expiresAt: Option<int>, refused: bool)
    | AddMany(feature: string, audience: string, members: seq<string>, expiresAt: Option<int>,
              refusedAt: Option<nat>, jitter: nat)
    | Remove(feature: string, audience: string, member: string, refused: bool)
    | Ttl(feature: string, audience: string, member: string, expiresAt: Option<int>, refused: bool)
    | Clear(feature: string, audience: string, refused: bool, jitter: nat)
    | Reap(feature: string, audience: string)

  datatype Answer =
    | Belongs(yes: bool)
    | Okay
    | NotFound
    | Backend
    | Removed(count: nat)
    | BadMember

  /** What one call leaves behind: the shared state, the process's own memory, and the answer. */
  datatype After = After(shared: Shared, locals: Locals, answer: Answer)

  function HasOp(s: Shared, locals: Locals, feature: string, audience: string, member: string,
                 jitter: nat, refresh: bool): After
  {
    var generation := CurrentGeneration(s, locals, audience);
    var held := EntryAt(s, audience, generation, member);
    var row := if held.Some? then held.value.row else RowAt(s.table, feature, audience, member);
    var yes := row.Some? && !HasExpired(row.value, s.now);
    After(if held.None? || refresh then Filled(s, feature, audience, generation, member, jitter) else s,
          AfterAsking(s, locals, audience), Belongs(yes))
  }

  /** A row written, moved or removed, and then the entry of that membership evicted. */
  function WriteOp(s: Shared, locals: Locals, audience: string, member: string, table: Table, answer: Answer): After
  {
    After(Evicted(s.(table := table), audience, CurrentGeneration(s, locals, audience), member),
          AfterAsking(s, locals, audience), answer)
  }

  /** Rows of one audience changed in bulk, and then every entry it holds retired at once. */
  function BulkOp(s: Shared, locals: Locals, audience: string, table: Table, jitter: nat, answer: Answer): After
  {
    var next := NextGeneration(s, locals, audience);
    After(Bumped(s.(table := table), audience, next, jitter),
          locals[audience := LocalGeneration(next, s.now)], answer)
  }

  function Perform(s: Shared, locals: Locals, op: Op): After
  {
    match op
    case Has(feature, audience, member, jitter, refresh) =>
      if !IsMember(member) then After(s, locals, BadMember)
      else HasOp(s, locals, feature, audience, member, jitter, refresh)
    case Add(feature, audience, member, expiresAt, refused) =>
      if !IsMember(member) then After(s, locals, BadMember)
      else
        var table := if refused then s.table else Put(s.table, feature, audience, member, Row(expiresAt));
        WriteOp(s, locals, audience, member, table, if refused then Backend else Okay)
    case AddMany(feature, audience, members, expiresAt, refusedAt, jitter) =>
      if exists m <- members :: !IsMember(m) then After(s, locals, BadMember)
      else if members == [] then After(s, locals, Okay)
      else
        var count := WrittenCount(members, refusedAt);
        var table := PutAll(s.table, feature, audience, members[..count], Row(expiresAt));
        if count < |members| then After(s.(table := table), locals, Backend)
        else BulkOp(s, locals, audience, table, jitter, Okay)
    case Remove(feature, audience, member, refused) =>
      if !IsMember(member) then After(s, locals, BadMember)
      else
        var removed := Pk(feature, audience, member) in s.table && !refused;
        var table := if removed then s.table - {Pk(feature, audience, member)} else s.table;
        WriteOp(s, locals, audience, member, table, if removed then Okay else NotFound)
    case Ttl(feature, audience, member, expiresAt, refused) =>
      if !IsMember(member) then After(s, locals, BadMember)
      else
        var retimed := TableHolds(s, feature, audience, member) && !refused;
        var table := if retimed then Put(s.table, feature, audience, member, Row(expiresAt)) else s.table;
        WriteOp(s, locals, audience, member, table, if retimed then Okay else NotFound)
    case Clear(feature, audience, refused, jitter) =>
      var table := if refused then s.table else Dropped(s.table, feature, audience);
      BulkOp(s, locals, audience, table, jitter, if refused then Backend else Okay)
    case Reap(feature, audience) =>
      var table := Reaped(s.table, feature, audience, s.now);
      After(s.(table := table), locals, Removed(|set pk | pk in s.table && Reapable(s.table, feature, audience, s.now, pk)|))
  }

  // ------------------------------------------------ what each call does to the rows

  /** The row of every membership but those of one audience is as it was. */
  ghost predicate OtherAudiencesStay(table: Table, table': Table, feature: string, audience: string)
  {
    forall f, a, m | f != feature || a != audience :: RowAt(table', f, a, m) == RowAt(table, f, a, m)
  }

  /** The row of every membership but one is as it was. */
  ghost predicate OtherRowsStay(table: Table, table': Table, feature: string, audience: string, member: string)
  {
    forall f, a, m | f != feature || a != audience || m != member :: RowAt(table', f, a, m) == RowAt(table, f, a, m)
  }

  /** Adding a member writes its row, and no other, unless the write was refused, which is what the call answers. */
  lemma AddWritesItsRow(s: Shared, locals: Locals, op: Op)
    requires op.Add? && IsMember(op.member)
    ensures var after := Perform(s, locals, op);
            && after.answer == (if op.refused then Backend else Okay)
            && RowAt(after.shared.table, op.feature, op.audience, op.member)
               == (if op.refused then RowAt(s.table, op.feature, op.audience, op.member) else Some(Row(op.expiresAt)))
            && OtherRowsStay(s.table, after.shared.table, op.feature, op.audience, op.member)
  {
  }

  /** Removing a member leaves no row of it, and every other row, unless the delete was refused. */
  lemma RemoveDropsItsRow(s: Shared, locals: Locals, op: Op)
    requires op.Remove? && IsMember(op.member)
    ensures var after := Perform(s, locals, op); var was := RowAt(s.table, op.feature, op.audience, op.member);
            && after.answer == (if was.Some? && !op.refused then Okay else NotFound)
            && RowAt(after.shared.table, op.feature, op.audience, op.member) == (if op.refused then was else None)
            && OtherRowsStay(s.table, after.shared.table, op.feature, op.audience, op.member)
  {
  }

  /** A new lapse reaches only a membership that has not lapsed, and puts nobody in. */
  lemma RetimeMovesLiveRows(s: Shared, locals: Locals, op: Op)
    requires op.Ttl? && IsMember(op.member)
    ensures var after := Perform(s, locals, op); var was := RowAt(s.table, op.feature, op.audience, op.member);
            var moves := !op.refused && was.Some? && (was.value.expiresAt.Some? ==> s.now < was.value.expiresAt.value);
            && after.answer == (if moves then Okay else NotFound)
            && RowAt(after.shared.table, op.feature, op.audience, op.member) == (if moves then Some(Row(op.expiresAt)) else was)
            && OtherRowsStay(s.table, after.shared.table, op.feature, op.audience, op.member)
  {
  }

  /**
   * A bulk add writes the row of each member it names, and no other, up to the chunk of a thousand that was refused,
   * when one was, which is what the call answers.
   */
  lemma AddManyWritesItsRows(s: Shared, locals: Locals, op: Op, m: string)
    requires op.AddMany? && (forall n <- op.members :: IsMember(n))
    ensures var after := Perform(s, locals, op);
            var stops := op.refusedAt.Some? && 1_000 * op.refusedAt.value < |op.members|;
            var written := if stops then op.members[..1_000 * op.refusedAt.value] else op.members;
            && after.answer == (if stops then Backend else Okay)
            && RowAt(after.shared.table, op.feature, op.audience, m)
               == (if m in written then Some(Row(op.expiresAt)) else RowAt(s.table, op.feature, op.audience, m))
            && OtherAudiencesStay(s.table, after.shared.table, op.feature, op.audience)
  {
    var count := WrittenCount(op.members, op.refusedAt);
    assert op.members[..|op.members|] == op.members;
    PutAllWritesEachMember(s.table, op.feature, op.audience, op.members[..count], Row(op.expiresAt));
  }

  /** Clearing an audience leaves no row of it at all, and every row of any other, unless the wipe was refused. */
  lemma ClearDropsEveryRow(s: Shared, locals: Locals, op: Op, m: string)
    requires op.Clear?
    ensures var after := Perform(s, locals, op);
            && after.answer == (if op.refused then Backend else Okay)
            && RowAt(after.shared.table, op.feature, op.audience, m)
               == (if op.refused then RowAt(s.table, op.feature, op.audience, m) else None)
            && OtherAudiencesStay(s.table, after.shared.table, op.feature, op.audience)
  {
  }

  /** Reaping an audience drops its lapsed rows, those and no others, and answers how many rows went. */
  lemma ReapDropsLapsedRows(s: Shared, locals: Locals, op: Op, m: string)
    requires op.Reap?
    ensures var after := Perform(s, locals, op); var was := RowAt(s.table, op.feature, op.audience, m);
            && RowAt(after.shared.table, op.feature, op.audience, m)
               == (if was.Some? && was.value.expiresAt.Some? && was.value.expiresAt.value <= s.now then None else was)
            && OtherAudiencesStay(s.table, after.shared.table, op.feature, op.audience)
            && after.answer == Removed(|s.table.Keys - after.shared.table.Keys|)
            && after.shared.table.Keys <= s.table.Keys
  {
    var after := Perform(s, locals, op);
    assert s.table.Keys - after.shared.table.Keys
        == set pk | pk in s.table && Reapable(s.table, op.feature, op.audience, s.now, pk);
  }

  /** Asking changes no row, and neither does a call with a member no row can name. */
  lemma AskingChangesNoRow(s: Shared, locals: Locals, op: Op)
    requires op.Has? || ((op.Add? || op.Remove? || op.Ttl?) && !IsMember(op.member))
    ensures Perform(s, locals, op).shared.table == s.table
    ensures Perform(s, locals, op).answer == BadMember <==> !IsMember(op.member)
  {
  }
}
