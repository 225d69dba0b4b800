/** Bulk creation of links: every interleaving of its pooled chunks, over a table other writers insert into. */
module LinkBatch {
  import opened Results
  import opened LinkPattern
  import opened LinkRender

  const CREATE_CHUNK_SIZE: nat := 500
  const MAX_SLUG_ATTEMPTS: nat := 5

  // ------------------------------------------------------------ declarations

  datatype FieldKind = StringField | NumberField | BooleanField

  /** What a declaration checks its data against: its template, and the kinds its fields were declared with. */
  datatype Declared = Declared(name: string, template: Option<seq<Segment>>, fields: Option<map<string, FieldKind>>)

  predicate FieldAccepts(kind: FieldKind, data: Data, name: string)
  {
    name in data &&
    match kind
    case StringField => data[name].Text?
    case NumberField => data[name].Number? && data[name].text !in ["NaN", "Infinity", "-Infinity"]
    case BooleanField => data[name].Flag?
  }

  predicate Accepted(d: Declared, data: Data)
  {
    && (d.template.Some? ==> Accepts(NamesOf(d.template.value), data))
    && (d.fields.Some? ==> forall name <- d.fields.value :: FieldAccepts(d.fields.value[name], data, name))
  }

  // ------------------------------------------------------------------- state

  datatype Row = Row(name: string, data: Data, expiresAt: Option<int>, createdAt: int)

  type Table = map<string, Row>

  datatype Outcome = Made(slug: string, expiresAt: Option<int>, createdAt: int) | Params | Backend | SlugConflict

  /** What a call was given, and the chunks its accepted indexes were cut into. */
  datatype Batch = Batch(declared: Declared, items: seq<Data>, chunks: seq<seq<nat>>)

  /** One place of one chunk. */
  datatype Slot = Slot(chunk: nat, at: nat)

  /** Where one chunk stands: its slugs drawn, its rows written, or its items taken one at a time. */
  datatype Worker = Idle | Drawn(slugs: seq<string>) | Written(slugs: seq<string>) | Falling | Ended

  /**
   * The table, the answers so far, how often each was written, and each chunk's progress. `mine` says which place
   * a row of this call was written for, and `foreign` which rows others wrote meanwhile.
   */
  datatype State = State(
    table: Table, results: seq<Option<Outcome>>, writes: seq<nat>, workers: seq<Worker>, tries: map<Slot, nat>,
    mine: map<string, Slot>, foreign: set<string>)

  predicate InPlan(b: Batch, slot: Slot)
  {
    slot.chunk < |b.chunks| && slot.at < |b.chunks[slot.chunk]|
  }

  function IndexOf(b: Batch, slot: Slot): nat
    requires InPlan(b, slot)
  {
    b.chunks[slot.chunk][slot.at]
  }

  /** Whether the chunks hold each accepted index exactly once, and no other. */
  ghost predicate Planned(b: Batch)
  {
    && (forall s | InPlan(b, s) :: IndexOf(b, s) < |b.items| && Accepted(b.declared, b.items[IndexOf(b, s)]))
    && (forall s, t | InPlan(b, s) && InPlan(b, t) && IndexOf(b, s) == IndexOf(b, t) :: s == t)
    && (forall i | 0 <= i < |b.items| && Accepted(b.declared, b.items[i]) :: exists s :: InPlan(b, s) && IndexOf(b, s) == i)
  }

  // ------------------------------------------------------------------- steps

  /** What one insert came to: it went through, a slug was taken, or the table did not answer. */
  datatype Insert = Wrote | Taken | Unavailable

  datatype Step =
    | Draw(chunk: nat, slugs: seq<string>)
    | InsertChunk(chunk: nat, insert: Insert, expiresAt: Option<int>, createdAt: int)
    | ReadChunk(chunk: nat)
    | TryOne(slot: Slot, slug: string, insert: Insert, expiresAt: Option<int>, createdAt: int)
    | Finish(chunk: nat)
    | Other(slug: string, row: Row)

  predicate Fresh(table: Table, slugs: seq<string>)
  {
    && (forall i, j | 0 <= i < j < |slugs| :: slugs[i] != slugs[j])
    && (forall s <- slugs :: s !in table)
  }

  /** What the unique index lets an insert of `slugs` come to. */
  predicate Allows(table: Table, slugs: seq<string>, insert: Insert)
  {
    match insert
    case Wrote => Fresh(table, slugs)
    case Taken => !Fresh(table, slugs)
    case Unavailable => true
  }

  predicate Fits(b: Batch, st: State)
  {
    && |st.results| == |b.items| && |st.writes| == |b.items| && |st.workers| == |b.chunks|
    && (forall k | 0 <= k < |st.workers| ::
          (st.workers[k].Drawn? || st.workers[k].Written? ==> |st.workers[k].slugs| == |b.chunks[k]|))
  }

  ghost predicate Enabled(b: Batch, st: State, step: Step)
    requires Fits(b, st)
  {
    match step
    case Draw(k, slugs) => k < |b.chunks| && st.workers[k] == Idle && |slugs| == |b.chunks[k]|
    case InsertChunk(k, insert, _, _) =>
      k < |b.chunks| && st.workers[k].Drawn? && Allows(st.table, st.workers[k].slugs, insert)
    case ReadChunk(k) => k < |b.chunks| && st.workers[k].Written?
    case TryOne(slot, slug, insert, _, _) =>
      && InPlan(b, slot) && st.workers[slot.chunk] == Falling && IndexOf(b, slot) < |b.items|
      && st.results[IndexOf(b, slot)].None? && Allows(st.table, [slug], insert)
    case Finish(k) =>
      && k < |b.chunks| && st.workers[k] == Falling
      && forall i <- b.chunks[k] :: i < |b.items| && st.results[i].Some?
    case Other(slug, _) => slug !in st.table
  }

  function Tries(st: State, slot: Slot): nat
  {
    if slot in st.tries then st.tries[slot] else 0
  }

  /** One answer written into the call's results. */
  function Answered(st: State, i: nat, outcome: Outcome): State
    requires i < |st.results| && i < |st.writes|
  {
    st.(results := st.results[i := Some(outcome)], writes := st.writes[i := st.writes[i] + 1])
  }

  /** What the read back finds for one place of a chunk. */
  function ReadBack(table: Table, slug: string): Outcome
  {
    if slug in table then Made(slug, table[slug].expiresAt, table[slug].createdAt) else Backend
  }

  /** Where `x` first stands in `s`. */
  function PositionOf<T(==)>(s: seq<T>, x: T): (at: nat)
    requires x in s
    ensures at < |s| && s[at] == x
  {
    if s[0] == x then 0 else 1 + PositionOf(s[1..], x)
  }

  /** The answers of one whole chunk, written into the call's results. */
  function AnsweredChunk(st: State, chunk: seq<nat>, outcomes: seq<Outcome>): (r: State)
    requires |outcomes| == |chunk| && |st.results| == |st.writes|
    ensures |r.results| == |st.results| && |r.writes| == |st.writes|
  {
    st.(results := seq(|st.results|, i requires 0 <= i < |st.results| =>
                         if i in chunk then Some(outcomes[PositionOf(chunk, i)]) else st.results[i]),
        writes := seq(|st.writes|, i requires 0 <= i < |st.writes| => st.writes[i] + multiset(chunk)[i]))
  }

  function RowsOf(b: Batch, k: nat, slugs: seq<string>, expiresAt: Option<int>, createdAt: int): Table
    requires k < |b.chunks| && |slugs| == |b.chunks[k]| && forall i <- b.chunks[k] :: i < |b.items|
  {
    map s <- slugs :: s := Row(b.declared.name, ItemAt(b, k, PositionOf(slugs, s)), expiresAt, createdAt)
  }

  function ItemAt(b: Batch, k: nat, at: nat): Data
    requires k < |b.chunks| && at < |b.chunks[k]| && forall i <- b.chunks[k] :: i < |b.items|
  {
    assert b.chunks[k][at] in b.chunks[k];
    b.items[b.chunks[k][at]]
  }

  /** A chunk's rows in the table at once, each remembered as written for its place. */
  function ChunkWritten(b: Batch, st: State, k: nat, expiresAt: Option<int>, createdAt: int): State
    requires Fits(b, st) && k < |b.chunks| && st.workers[k].Drawn? && forall i <- b.chunks[k] :: i < |b.items|
  {
    var slugs := st.workers[k].slugs;
    st.(table := st.table + RowsOf(b, k, slugs, expiresAt, createdAt),
        mine := st.mine + (map s <- slugs :: s := Slot(k, PositionOf(slugs, s))),
        workers := st.workers[k := Written(slugs)])
  }

  /** One item written alone, or refused; the fifth slug taken is the last one drawn. */
  function OneTried(b: Batch, st: State, slot: Slot, slug: string, insert: Insert, expiresAt: Option<int>, createdAt: int): State
    requires Fits(b, st) && InPlan(b, slot) && IndexOf(b, slot) < |b.items|
  {
    var i := IndexOf(b, slot);
    match insert
    case Wrote =>
      Answered(st.(table := st.table[slug := Row(b.declared.name, b.items[i], expiresAt, createdAt)],
                   mine := st.mine[slug := slot]),
               i, Made(slug, expiresAt, createdAt))
    case Unavailable => Answered(st, i, Backend)
    case Taken =>
      var n := Tries(st, slot) + 1;
      var tried := st.(tries := st.tries[slot := n]);
      if n == MAX_SLUG_ATTEMPTS then Answered(tried, i, SlugConflict) else tried
  }

  ghost function Apply(b: Batch, st: State, step: Step): State
    requires Planned(b) && Fits(b, st) && Enabled(b, st, step)
  {
    match step
    case Draw(k, slugs) => st.(workers := st.workers[k := Drawn(slugs)])
    case InsertChunk(k, insert, expiresAt, createdAt) =>
      InPlanIndexes(b, k);
      (match insert
       case Wrote => ChunkWritten(b, st, k, expiresAt, createdAt)
       case Taken => st.(workers := st.workers[k := Falling])
       case Unavailable =>
         AnsweredChunk(st, b.chunks[k], seq(|b.chunks[k]|, _ => Backend)).(workers := st.workers[k := Ended]))
    case ReadChunk(k) =>
      var slugs := st.workers[k].slugs;
      AnsweredChunk(st, b.chunks[k], seq(|slugs|, at requires 0 <= at < |slugs| => ReadBack(st.table, slugs[at])))
      .(workers := st.workers[k := Ended])
    case TryOne(slot, slug, insert, expiresAt, createdAt) => OneTried(b, st, slot, slug, insert, expiresAt, createdAt)
    case Finish(k) => st.(workers := st.workers[k := Ended])
    case Other(slug, row) => st.(table := st.table[slug := row], foreign := st.foreign + {slug})
  }

  lemma InPlanIndexes(b: Batch, k: nat)
    requires Planned(b) && k < |b.chunks|
    ensures forall i <- b.chunks[k] :: i < |b.items|
  {
    forall at | 0 <= at < |b.chunks[k]|
      ensures b.chunks[k][at] < |b.items|
    {
      assert InPlan(b, Slot(k, at)) && IndexOf(b, Slot(k, at)) == b.chunks[k][at];
    }
  }

  /** Where a call starts: what it refused is answered, and every chunk waits. */
  function Started(b: Batch, table: Table): State
  {
    State(table,
          seq(|b.items|, i requires 0 <= i < |b.items| => if Accepted(b.declared, b.items[i]) then None else Some(Params)),
          seq(|b.items|, i requires 0 <= i < |b.items| => if Accepted(b.declared, b.items[i]) then 0 else 1),
          seq(|b.chunks|, _ => Idle), map[], map[], {})
  }

  // -------------------------------------------------------------------- runs

  ghost predicate Valid(b: Batch, st: State, run: seq<Step>)
    requires Planned(b)
    decreases |run|
  {
    run == [] || (Fits(b, st) && Enabled(b, st, run[0]) && Valid(b, Apply(b, st, run[0]), run[1..]))
  }

  ghost function Final(b: Batch, st: State, run: seq<Step>): State
    requires Planned(b) && Valid(b, st, run)
    decreases |run|
  {
    if run == [] then st else Final(b, Apply(b, st, run[0]), run[1..])
  }

  ghost predicate Reachable(b: Batch, table: Table, st: State)
    requires Planned(b)
  {
    exists run: seq<Step> :: Valid(b, Started(b, table), run) && Final(b, Started(b, table), run) == st
  }

  /** Whether every chunk is through. */
  predicate Over(st: State)
  {
    forall w <- st.workers :: w == Ended
  }
}
