/** Bulk creation taken alone: its loops, each write proved to be a step of `LinkBatch`. */
module LinkCreate {
  import opened Results
  import opened LinkPattern
  import opened LinkBatch
  import opened LinkBatchSafety

  // ----------------------------------------------------------------- chunks

  /** Where chunk `k` starts among the pending indexes. */
  function Start(k: nat): (n: nat)
    ensures n == 500 * k
  {
    k * CREATE_CHUNK_SIZE
  }

  /** The indexes of the items a declaration accepts, in order. */
  ghost predicate Pending(declared: Declared, items: seq<Data>, pending: seq<nat>)
  {
    && (forall x, y | 0 <= x < y < |pending| :: pending[x] < pending[y])
    && (forall i <- pending :: i < |items| && Accepted(declared, items[i]))
    && (forall i | 0 <= i < |items| && Accepted(declared, items[i]) :: i in pending)
  }

  /** Whether `chunks` are consecutive runs of `pending`, every one full but the last. */
  ghost predicate Chunked(pending: seq<nat>, chunks: seq<seq<nat>>)
  {
    && (forall k | 0 <= k < |chunks| :: Start(k) < |pending| && chunks[k] == ChunkAt(pending, k))
    && |pending| <= Start(|chunks|)
  }

  function ChunkAt(pending: seq<nat>, k: nat): seq<nat>
    requires Start(k) < |pending|
  {
    pending[Start(k)..if Start(k) + 500 < |pending| then Start(k) + 500 else |pending|]
  }

  /** Where a place of a chunk stands among the pending indexes. */
  lemma SlotIsPending(b: Batch, pending: seq<nat>, s: Slot)
    requires Chunked(pending, b.chunks) && InPlan(b, s)
    ensures s.at < 500 && Start(s.chunk) + s.at < |pending| && IndexOf(b, s) == pending[Start(s.chunk) + s.at]
  {
    assert b.chunks[s.chunk] == ChunkAt(pending, s.chunk);
  }

  lemma PendingHasSlot(b: Batch, pending: seq<nat>, x: nat)
    requires Chunked(pending, b.chunks) && x < |pending|
    ensures InPlan(b, Slot(x / 500, x % 500)) && IndexOf(b, Slot(x / 500, x % 500)) == pending[x]
  {
    var k, at := x / 500, x % 500;
    assert x == 500 * k + at;
    assert b.chunks[k] == ChunkAt(pending, k);
  }

  lemma OneSlotPerIndex(b: Batch, pending: seq<nat>, s: Slot, t: Slot)
    requires Pending(b.declared, b.items, pending) && Chunked(pending, b.chunks)
    requires InPlan(b, s) && InPlan(b, t) && IndexOf(b, s) == IndexOf(b, t)
    ensures s == t
  {
    SlotIsPending(b, pending, s);
    SlotIsPending(b, pending, t);
    var x, y := Start(s.chunk) + s.at, Start(t.chunk) + t.at;
    assert !(x < y) && !(y < x);
  }

  /** Chunks cut from the pending indexes hold each accepted index once, and no other. */
  lemma ChunksArePlanned(declared: Declared, items: seq<Data>, pending: seq<nat>, chunks: seq<seq<nat>>)
    requires Pending(declared, items, pending) && Chunked(pending, chunks)
    ensures Planned(Batch(declared, items, chunks))
  {
    var b := Batch(declared, items, chunks);
    forall s | InPlan(b, s)
      ensures IndexOf(b, s) < |b.items| && Accepted(b.declared, b.items[IndexOf(b, s)])
    {
      SlotIsPending(b, pending, s);
      assert IndexOf(b, s) in pending;
    }
    forall s, t | InPlan(b, s) && InPlan(b, t) && IndexOf(b, s) == IndexOf(b, t)
      ensures s == t
    {
      OneSlotPerIndex(b, pending, s, t);
    }
    forall i | 0 <= i < |items| && Accepted(declared, items[i])
      ensures exists s :: InPlan(b, s) && IndexOf(b, s) == i
    {
      var x :| 0 <= x < |pending| && pending[x] == i;
      PendingHasSlot(b, pending, x);
    }
  }

  /** Cuts the pending indexes into chunks, one after the other. */
  method ChunksOf(pending: seq<nat>) returns (chunks: seq<seq<nat>>)
    ensures Chunked(pending, chunks)
  {
    chunks := [];
    var at := 0;
    while at < |pending|
      invariant at == Start(|chunks|)
      invariant forall k | 0 <= k < |chunks| :: Start(k) < |pending| && chunks[k] == ChunkAt(pending, k)
    {
      chunks := chunks + [pending[at..if at + CREATE_CHUNK_SIZE < |pending| then at + CREATE_CHUNK_SIZE else |pending|]];
      at := at + CREATE_CHUNK_SIZE;
    }
  }

  // ----------------------------------------------------------------- objects

  /** The table of links, unique by slug, and not always answering. */
  class LinkTable {
    var rows: Table

    constructor (rows: Table)
      ensures this.rows == rows
    {
      this.rows := rows;
    }

    /** Writes every row in one statement, or none of them. */
    method Insert(slugs: seq<string>, added: Table) returns (insert: LinkBatch.Insert)
      requires added.Keys == set s <- slugs
      modifies this
      ensures Allows(old(rows), slugs, insert)
      ensures rows == if insert.Wrote? then old(rows) + added else old(rows)
    {
      var answers: bool := *;
      if !answers {
        return Unavailable;
      }
      if !Fresh(rows, slugs) {
        return Taken;
      }
      rows := rows + added;
      insert := Wrote;
    }
  }

  lemma Reach(b: Batch, was: Table, st: State, step: Step)
    requires Planned(b) && Reachable(b, was, st) && Fits(b, st) && Enabled(b, st, step)
    ensures Reachable(b, was, Apply(b, st, step))
  {
    var run: seq<Step> :| Valid(b, Started(b, was), run) && Final(b, Started(b, was), run) == st;
    LastStep(b, Started(b, was), run, step);
  }

  lemma {:induction false} LastStep(b: Batch, st: State, run: seq<Step>, step: Step)
    requires Planned(b) && Valid(b, st, run) && Fits(b, Final(b, st, run)) && Enabled(b, Final(b, st, run), step)
    ensures Valid(b, st, run + [step]) && Final(b, st, run + [step]) == Apply(b, Final(b, st, run), step)
    decreases |run|
  {
    if run == [] {
      assert (run + [step])[1..] == [];
    } else {
      assert (run + [step])[1..] == run[1..] + [step];
      LastStep(b, Apply(b, st, run[0]), run[1..], step);
    }
  }

  /** What a chunk's insert shows in the table and in the answers. */
  lemma InsertShows(b: Batch, st: State, k: nat, insert: LinkBatch.Insert, expiresAt: Option<int>, createdAt: int)
    requires Planned(b) && Fits(b, st) && k < |b.chunks| && st.workers[k].Drawn?
    requires Allows(st.table, st.workers[k].slugs, insert)
    requires forall i <- b.chunks[k] :: i < |b.items|
    ensures var next := Apply(b, st, Step.InsertChunk(k, insert, expiresAt, createdAt));
            && next.table == (if insert.Wrote? then st.table + RowsOf(b, k, st.workers[k].slugs, expiresAt, createdAt) else st.table)
            && next.results == (if insert.Unavailable? then AnsweredChunk(st, b.chunks[k], seq(|b.chunks[k]|, _ => Backend)).results
                                else st.results)
            && next.tries == st.tries
            && next.workers == st.workers[k := if insert.Wrote? then Written(st.workers[k].slugs)
                                               else if insert.Taken? then Falling else Ended]
  {
  }

  /** A chunk whose slugs are drawn has no place answered, and none tried. */
  lemma DrawnIsOpen(b: Batch, was: Table, st: State, k: nat)
    requires Planned(b) && Reachable(b, was, st) && Fits(b, st) && k < |b.chunks| && st.workers[k].Drawn?
    ensures forall at | 0 <= at < |b.chunks[k]| ::
              OpenAt(b, st, k, at)
  {
    ReachableIsOk(b, was, st);
    InPlanIndexes(b, k);
    forall at | 0 <= at < |b.chunks[k]|
      ensures OpenAt(b, st, k, at)
    {
      assert b.chunks[k][at] in b.chunks[k];
      assert InPlan(b, Slot(k, at)) && IndexOf(b, Slot(k, at)) == b.chunks[k][at];
      assert SlotOk(b, st, Slot(k, at));
    }
  }

  lemma NothingYet(b: Batch, was: Table)
    requires Planned(b)
    ensures Reachable(b, was, Started(b, was))
  {
    assert Valid(b, Started(b, was), []) && Final(b, Started(b, was), []) == Started(b, was);
  }

  /** One call in progress; `st` is its state in the machine, which nothing the call does reads. */
  class BulkCreate {
    const declared: Declared
    const items: seq<Data>
    const table: LinkTable
    const results: array<Option<Outcome>>
    ghost const chunks: seq<seq<nat>>
    ghost const was: Table
    ghost var st: State

    constructor (declared: Declared, items: seq<Data>, table: LinkTable, results: array<Option<Outcome>>,
                 ghost chunks: seq<seq<nat>>)
      requires Planned(Batch(declared, items, chunks))
      requires results[..] == Started(Batch(declared, items, chunks), table.rows).results
      ensures this.declared == declared && this.items == items && this.table == table && this.results == results
      ensures this.chunks == chunks && this.was == table.rows && st == Started(Plan(), was) && Following()
    {
      this.declared := declared;
      this.items := items;
      this.table := table;
      this.results := results;
      this.chunks := chunks;
      this.was := table.rows;
      st := Started(Batch(declared, items, chunks), table.rows);
      new;
      NothingYet(Plan(), was);
    }

    ghost function Plan(): Batch
    {
      Batch(declared, items, chunks)
    }

    /** The table and the answers are those of a state some interleaving reaches. */
    ghost predicate Following()
      reads this, table, results
    {
      && Planned(Plan()) && Reachable(Plan(), was, st) && Fits(Plan(), st)
      && table.rows == st.table && results[..] == st.results
    }

    /** One step the call took, which the table and the answers already show. */
    ghost method Note(step: Step)
      requires Planned(Plan()) && Reachable(Plan(), was, st) && Fits(Plan(), st) && Enabled(Plan(), st, step)
      requires var next := Apply(Plan(), st, step); table.rows == next.table && results[..] == next.results
      modifies `st
      ensures Following() && st == Apply(Plan(), old(st), step)
    {
      Reach(Plan(), was, st, step);
      st := Apply(Plan(), st, step);
      ReachableIsOk(Plan(), was, st);
    }

    /** Draws one slug. */
    method GenerateSlug() returns (slug: string)
    {
      slug := *;
    }

    /** One attempt at writing one item alone; after the last one, a slug taken is the answer. */
    method TryOnce(ghost slot: Slot, index: nat, attempt: nat) returns (done: bool)
      requires Following() && InPlan(Plan(), slot) && IndexOf(Plan(), slot) == index < |items|
      requires st.workers[slot.chunk] == Falling && st.results[index].None?
      requires attempt == Tries(st, slot) < MAX_SLUG_ATTEMPTS
      modifies this`st, table, results
      ensures Following() && Aside(old(st), st, slot, index)
      ensures if done then st.results[index].Some? else st.results[index].None? && Tries(st, slot) == attempt + 1 < MAX_SLUG_ATTEMPTS
    {
      var slug := GenerateSlug();
      var expiresAt: Option<int> := *;
      var createdAt: int := *;
      assert [slug][0] == slug;
      var insert := table.Insert([slug], map[slug := Row(declared.name, items[index], expiresAt, createdAt)]);
      done := true;
      match insert {
        case Wrote => results[index] := Some(Made(slug, expiresAt, createdAt));
        case Unavailable => results[index] := Some(Backend);
        case Taken =>
          if attempt + 1 == MAX_SLUG_ATTEMPTS {
            results[index] := Some(SlugConflict);
          } else {
            done := false;
          }
      }
      Note(TryOne(slot, slug, insert, expiresAt, createdAt));
    }

    /** Writes one item alone, on up to five slugs. */
    method CreateOne(ghost slot: Slot, index: nat)
      requires Following() && InPlan(Plan(), slot) && IndexOf(Plan(), slot) == index < |items|
      requires st.workers[slot.chunk] == Falling && st.results[index].None? && Tries(st, slot) == 0
      modifies this`st, table, results
      ensures Following() && Aside(old(st), st, slot, index) && st.results[index].Some?
    {
      var attempt, done := 0, false;
      while !done
        invariant attempt <= MAX_SLUG_ATTEMPTS && Following() && Aside(old(st), st, slot, index)
        invariant if done then st.results[index].Some?
                  else st.results[index].None? && attempt == Tries(st, slot) < MAX_SLUG_ATTEMPTS
        decreases MAX_SLUG_ATTEMPTS - attempt, !done
      {
        done := TryOnce(slot, index, attempt);
        attempt := attempt + 1;
      }
    }

    /** Writes the answers of one chunk, one index after the other. */
    method Fill(k: nat, indexes: seq<nat>, outcomes: seq<Outcome>)
      requires Planned(Plan()) && Fits(Plan(), st) && results[..] == st.results
      requires k < |chunks| && indexes == chunks[k] && |outcomes| == |indexes|
      modifies results
      ensures results[..] == AnsweredChunk(st, chunks[k], outcomes).results
    {
      InPlanIndexes(Plan(), k);
      ChunkIsDistinct(Plan(), k);
      assert results.Length == |st.results| == |items|;
      forall x | 0 <= x < |indexes|
        ensures indexes[x] < results.Length
      {
        assert indexes[x] in chunks[k];
      }
      for at := 0 to |indexes|
        invariant forall x | 0 <= x < at :: results[indexes[x]] == Some(outcomes[x])
        invariant forall i | 0 <= i < results.Length && i !in indexes[..at] :: results[i] == st.results[i]
      {
        results[indexes[at]] := Some(outcomes[at]);
      }
      assert indexes[..|indexes|] == indexes;
      assert results[..] == AnsweredChunk(st, chunks[k], outcomes).results;
    }

    /** Draws a slug for each place of a chunk. */
    method DrawSlugs(k: nat, size: nat) returns (slugs: seq<string>)
      requires Following() && k < |chunks| && |chunks[k]| == size && st.workers[k] == Idle
      modifies this`st
      ensures Following() && |slugs| == size && st == old(st).(workers := old(st.workers)[k := Drawn(slugs)])
    {
      slugs := [];
      for at := 0 to size
        invariant |slugs| == at && st == old(st) && Following()
      {
        var slug := GenerateSlug();
        slugs := slugs + [slug];
      }
      Note(Draw(k, slugs));
    }

    /** What one chunk writes, each slug for the item of its place. */
    function RowsFor(indexes: seq<nat>, slugs: seq<string>, expiresAt: Option<int>, createdAt: int): Table
      requires |slugs| == |indexes| && forall i <- indexes :: i < |items|
    {
      map s <- slugs :: s := Row(declared.name, ItemFor(indexes, PositionOf(slugs, s)), expiresAt, createdAt)
    }

    function ItemFor(indexes: seq<nat>, at: nat): Data
      requires at < |indexes| && forall i <- indexes :: i < |items|
    {
      assert indexes[at] in indexes;
      items[indexes[at]]
    }

    /** Writes one chunk in one statement: its rows, or what refused them. */
    method InsertChunk(k: nat, indexes: seq<nat>, slugs: seq<string>) returns (insert: LinkBatch.Insert)
      requires Following() && k < |chunks| && indexes == chunks[k] && st.workers[k] == Drawn(slugs)
      modifies this`st, table, results
      ensures Following() && (forall j | 0 <= j < |chunks| && j != k :: st.workers[j] == old(st.workers[j]))
      ensures st.workers[k] == if insert.Wrote? then Written(slugs) else if insert.Taken? then Falling else Ended
      ensures insert.Taken? ==> st.results == old(st.results) && st.tries == old(st.tries)
    {
      InPlanIndexes(Plan(), k);
      var expiresAt: Option<int> := *;
      var createdAt: int := *;
      var added := RowsFor(indexes, slugs, expiresAt, createdAt);
      assert added == RowsOf(Plan(), k, slugs, expiresAt, createdAt);
      insert := table.Insert(slugs, added);
      InsertShows(Plan(), st, k, insert, expiresAt, createdAt);
      if insert.Unavailable? {
        Fill(k, indexes, seq(|indexes|, _ => Backend));
      }
      Note(Step.InsertChunk(k, insert, expiresAt, createdAt));
    }

    /** Reads a written chunk back, and answers each place with the row found under its slug. */
    method ReadChunk(k: nat, indexes: seq<nat>, slugs: seq<string>)
      requires Following() && k < |chunks| && indexes == chunks[k] && st.workers[k] == Written(slugs)
      modifies this`st, results
      ensures Following() && st.workers == old(st.workers)[k := Ended]
    {
      var found := table.rows;
      Fill(k, indexes, seq(|slugs|, at requires 0 <= at < |slugs| => ReadBack(found, slugs[at])));
      Note(Step.ReadChunk(k));
    }

    /** Falls back on a chunk whose insert met a slug taken: its items one at a time. */
    method FallBack(k: nat, indexes: seq<nat>)
      requires Following() && k < |chunks| && indexes == chunks[k] && st.workers[k] == Falling
      requires forall at | 0 <= at < |indexes| :: OpenAt(Plan(), st, k, at)
      modifies this`st, table, results
      ensures Following() && st.workers == old(st.workers)[k := Ended]
    {
      InPlanIndexes(Plan(), k);
      for at := 0 to |indexes|
        invariant Following() && st.workers == old(st.workers)
        invariant forall x | 0 <= x < at :: DoneAt(Plan(), st, k, x)
        invariant forall x | at <= x < |indexes| :: OpenAt(Plan(), st, k, x)
      {
        assert indexes[at] in indexes && OpenAt(Plan(), st, k, at);
        ghost var before := st;
        CreateOne(Slot(k, at), indexes[at]);
        OthersStand(Plan(), before, st, k, at);
        assert DoneAt(Plan(), st, k, at);
      }
      forall i <- chunks[k]
        ensures i < |items| && st.results[i].Some?
      {
        var x :| 0 <= x < |chunks[k]| && chunks[k][x] == i;
        assert DoneAt(Plan(), st, k, x);
      }
      Note(Finish(k));
    }

    /** Writes one chunk: in one statement, or one item at a time when a slug was taken. */
    method CreateChunk(k: nat, indexes: seq<nat>)
      requires Following() && k < |chunks| && indexes == chunks[k] && st.workers[k] == Idle
      modifies this`st, table, results
      ensures Following() && st.workers[k] == Ended
      ensures forall j | 0 <= j < |chunks| && j != k :: st.workers[j] == old(st.workers[j])
    {
      var slugs := DrawSlugs(k, |indexes|);
      ghost var drawn := st;
      DrawnIsOpen(Plan(), was, drawn, k);
      var insert := InsertChunk(k, indexes, slugs);
      match insert
      case Wrote => ReadChunk(k, indexes, slugs);
      case Unavailable =>
      case Taken =>
        forall at | 0 <= at < |indexes|
          ensures OpenAt(Plan(), st, k, at)
        {
          assert OpenAt(Plan(), drawn, k, at);
        }
        FallBack(k, indexes);
    }

    /** Writes every chunk; taken alone, one after the other. */
    method CreateAll(plan: seq<seq<nat>>)
      requires Following() && plan == chunks && forall k | 0 <= k < |chunks| :: st.workers[k] == Idle
      modifies this`st, table, results
      ensures Following() && Over(st)
    {
      for k := 0 to |plan|
        invariant Following()
        invariant forall j | 0 <= j < k :: st.workers[j] == Ended
        invariant forall j | k <= j < |plan| :: st.workers[j] == Idle
      {
        CreateChunk(k, plan[k]);
      }
    }
  }

  predicate OpenAt(b: Batch, st: State, k: nat, at: nat)
    requires k < |b.chunks| && at < |b.chunks[k]|
  {
    b.chunks[k][at] < |st.results| && st.results[b.chunks[k][at]].None? && Tries(st, Slot(k, at)) == 0
  }

  predicate DoneAt(b: Batch, st: State, k: nat, at: nat)
    requires k < |b.chunks| && at < |b.chunks[k]|
  {
    b.chunks[k][at] < |st.results| && st.results[b.chunks[k][at]].Some?
  }

  /** One place tried leaves the other places of its chunk as they were. */
  lemma OthersStand(b: Batch, st: State, st': State, k: nat, at: nat)
    requires Planned(b) && Fits(b, st) && k < |b.chunks| && at < |b.chunks[k]|
    requires b.chunks[k][at] < |b.items| && Aside(st, st', Slot(k, at), b.chunks[k][at])
    ensures forall x | 0 <= x < |b.chunks[k]| && x != at && OpenAt(b, st, k, x) :: OpenAt(b, st', k, x)
    ensures forall x | 0 <= x < |b.chunks[k]| && x != at && DoneAt(b, st, k, x) :: DoneAt(b, st', k, x)
  {
    ChunkIsDistinct(b, k);
    InPlanIndexes(b, k);
    forall x | 0 <= x < |b.chunks[k]| && x != at
      ensures b.chunks[k][x] < |b.items| && b.chunks[k][x] != b.chunks[k][at]
    {
      assert b.chunks[k][x] in b.chunks[k];
    }
    forall x | 0 <= x < |b.chunks[k]| && x != at
      ensures Tries(st', Slot(k, x)) == Tries(st, Slot(k, x))
    {
      var s := Slot(k, x);
      assert s in st'.tries.Keys + st.tries.Keys || (s !in st'.tries && s !in st.tries);
    }
  }

  /** Whether only the answer of one place, and its count of tries, changed. */
  predicate Aside(st: State, st': State, slot: Slot, i: nat)
  {
    && st'.workers == st.workers && |st'.results| == |st.results|
    && (forall j | 0 <= j < |st.results| && j != i :: st'.results[j] == st.results[j])
    && (forall s | s in st'.tries.Keys + st.tries.Keys && s != slot :: Tries(st', s) == Tries(st, s))
  }

  /** A refused item is answered, an accepted one is pending; what is pending is kept in order. */
  method CheckAll(declared: Declared, items: seq<Data>, results: array<Option<Outcome>>) returns (pending: seq<nat>)
    requires results.Length == |items| && forall i | 0 <= i < |items| :: results[i].None?
    modifies results
    ensures Pending(declared, items, pending)
    ensures forall i | 0 <= i < |items| :: results[i] == if Accepted(declared, items[i]) then None else Some(Params)
  {
    pending := [];
    for index := 0 to |items|
      invariant forall x, y | 0 <= x < y < |pending| :: pending[x] < pending[y]
      invariant forall x | 0 <= x < |pending| :: pending[x] < index
      invariant forall i <- pending :: i < index && Accepted(declared, items[i])
      invariant forall i | 0 <= i < index && Accepted(declared, items[i]) :: i in pending
      invariant forall i | 0 <= i < |items| ::
                  results[i] == if i < index && !Accepted(declared, items[i]) then Some(Params) else None
    {
      if !Accepted(declared, items[index]) {
        results[index] := Some(Params);
      } else {
        pending := pending + [index];
      }
    }
  }

  /**
   * Creates one link per item and answers one outcome per item. Its run is one of those of `LinkBatch`, so what
   * holds of every run once it is over holds of what it answers.
   */
  method CreateMany(declared: Declared, items: seq<Data>, table: LinkTable)
    returns (results: array<Option<Outcome>>, ghost b: Batch, ghost st: State)
    modifies table
    ensures fresh(results) && b.declared == declared && b.items == items && Planned(b)
    ensures Reachable(b, old(table.rows), st) && Over(st)
    ensures results[..] == st.results && table.rows == st.table
  {
    results := new Option<Outcome>[|items|](_ => None);
    var pending := CheckAll(declared, items, results);
    var chunks := ChunksOf(pending);
    ChunksArePlanned(declared, items, pending, chunks);
    b := Batch(declared, items, chunks);
    assert results[..] == Started(b, table.rows).results;
    var call := new BulkCreate(declared, items, table, results, chunks);
    call.CreateAll(chunks);
    st := call.st;
  }
}
