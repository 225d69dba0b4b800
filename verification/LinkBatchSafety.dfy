/** What every interleaving of a bulk creation keeps, and what its answers say of the table once it is over. */
module LinkBatchSafety {
  import opened Results
  import opened LinkBatch

  // --------------------------------------------------------------- invariant

  /** Whether the rows written for `slot` are exactly those of `slugs`. */
  predicate WrittenFor(st: State, slot: Slot, slugs: set<string>)
  {
    forall s <- st.mine.Keys + slugs :: (s in st.mine && st.mine[s] == slot) <==> s in slugs
  }

  /** An answer written once, and true: a link made names its own row, and any other answer left none. */
  predicate Closed(st: State, slot: Slot, i: nat)
    requires i < |st.results| && i < |st.writes|
  {
    && st.writes[i] == 1 && st.results[i].Some? && st.results[i].value != Params
    && match st.results[i].value
       case Made(s, expiresAt, createdAt) =>
         && WrittenFor(st, slot, {s}) && s in st.table
         && st.table[s].expiresAt == expiresAt && st.table[s].createdAt == createdAt
       case _ => WrittenFor(st, slot, {})
  }

  predicate Unanswered(st: State, i: nat)
    requires i < |st.results| && i < |st.writes|
  {
    st.results[i].None? && st.writes[i] == 0
  }

  predicate SlotOk(b: Batch, st: State, slot: Slot)
    requires Fits(b, st) && InPlan(b, slot) && IndexOf(b, slot) < |b.items|
  {
    var i := IndexOf(b, slot);
    match st.workers[slot.chunk]
    case Written(slugs) => Unanswered(st, i) && WrittenFor(st, slot, {slugs[slot.at]})
    case Falling =>
      if st.results[i].None? then st.writes[i] == 0 && Tries(st, slot) < MAX_SLUG_ATTEMPTS && WrittenFor(st, slot, {})
      else Closed(st, slot, i)
    case Ended => Closed(st, slot, i)
    case _ => Unanswered(st, i) && WrittenFor(st, slot, {}) && Tries(st, slot) == 0
  }

  /** A row this call wrote is in the table, with this declaration's name and the data of its place. */
  predicate MineOk(b: Batch, st: State, s: string)
    requires s in st.mine
  {
    && InPlan(b, st.mine[s]) && IndexOf(b, st.mine[s]) < |b.items|
    && s in st.table && st.table[s].name == b.declared.name && st.table[s].data == b.items[IndexOf(b, st.mine[s])]
  }

  predicate RefusedOk(b: Batch, st: State, i: nat)
    requires Fits(b, st) && i < |b.items|
  {
    !Accepted(b.declared, b.items[i]) ==> st.results[i] == Some(Params) && st.writes[i] == 1
  }

  /** The rows are those that were there, those of this call, and those of others, no row twice. */
  ghost predicate KeysOk(was: Table, st: State)
  {
    && (forall s :: s in st.table <==> s in was || s in st.mine || s in st.foreign)
    && (forall s <- st.mine :: s !in was && s !in st.foreign)
    && (forall s <- st.foreign :: s !in was)
  }

  ghost predicate Inv(b: Batch, was: Table, st: State)
    requires Planned(b)
  {
    Fits(b, st) && KeysOk(was, st) && SlotsOk(b, st) && MinesOk(b, st) && RefusalsOk(b, st)
  }

  ghost predicate SlotsOk(b: Batch, st: State)
    requires Fits(b, st)
  {
    forall s | InPlan(b, s) && IndexOf(b, s) < |b.items| :: SlotOk(b, st, s)
  }

  ghost predicate MinesOk(b: Batch, st: State)
  {
    forall s <- st.mine :: MineOk(b, st, s)
  }

  predicate RefusalsOk(b: Batch, st: State)
    requires Fits(b, st)
  {
    forall i | 0 <= i < |b.items| :: RefusedOk(b, st, i)
  }

  lemma MinesStay(b: Batch, st: State, st': State)
    requires MinesOk(b, st) && st'.mine == st.mine
    requires forall s <- st.mine | s in st.table :: s in st'.table && st'.table[s] == st.table[s]
    ensures MinesOk(b, st')
  {
    forall s <- st'.mine
      ensures MineOk(b, st', s)
    {
      assert MineOk(b, st, s);
    }
  }

  lemma RefusalsStay(b: Batch, st: State, st': State)
    requires Fits(b, st) && Fits(b, st') && RefusalsOk(b, st) && st'.results == st.results && st'.writes == st.writes
    ensures RefusalsOk(b, st')
  {
    forall i | 0 <= i < |b.items|
      ensures RefusedOk(b, st', i)
    {
      assert RefusedOk(b, st, i);
    }
  }

  /** Rows this call wrote are in the table. */
  lemma MinesAreThere(b: Batch, st: State)
    requires MinesOk(b, st)
    ensures forall m <- st.mine :: m in st.table
  {
    forall m <- st.mine
      ensures m in st.table
    {
      assert MineOk(b, st, m);
    }
  }

  // ------------------------------------------------------------------- frame

  /** Whether everything said of `slot` is said alike in both states. */
  predicate SameSlot(b: Batch, st: State, st': State, slot: Slot)
    requires Fits(b, st) && Fits(b, st') && InPlan(b, slot) && IndexOf(b, slot) < |b.items|
  {
    var i := IndexOf(b, slot);
    && st'.workers[slot.chunk] == st.workers[slot.chunk]
    && st'.results[i] == st.results[i] && st'.writes[i] == st.writes[i] && Tries(st', slot) == Tries(st, slot)
  }

  /** The rows of this call are kept, and any more are of other places than `slot`. */
  predicate KeepsRows(st: State, st': State, slot: Slot)
  {
    && (forall s <- st.mine :: s in st'.mine && st'.mine[s] == st.mine[s])
    && (forall s <- st'.mine | s !in st.mine :: st'.mine[s] != slot)
    && (forall s <- st.mine | s in st.table :: s in st'.table && st'.table[s] == st.table[s])
  }

  lemma SlotStays(b: Batch, st: State, st': State, slot: Slot)
    requires Fits(b, st) && Fits(b, st') && InPlan(b, slot) && IndexOf(b, slot) < |b.items|
    requires SlotOk(b, st, slot) && SameSlot(b, st, st', slot) && KeepsRows(st, st', slot)
    ensures SlotOk(b, st', slot)
  {
  }

  lemma {:induction false} CountIsOne(chunk: seq<nat>, i: nat)
    requires forall x, y | 0 <= x < y < |chunk| :: chunk[x] != chunk[y]
    ensures multiset(chunk)[i] == if i in chunk then 1 else 0
  {
    if chunk != [] {
      assert chunk == [chunk[0]] + chunk[1..];
      CountIsOne(chunk[1..], i);
      assert chunk[0] == i ==> i !in chunk[1..];
    }
  }

  lemma ChunkIsDistinct(b: Batch, k: nat)
    requires Planned(b) && k < |b.chunks|
    ensures forall x, y | 0 <= x < y < |b.chunks[k]| :: b.chunks[k][x] != b.chunks[k][y]
  {
    forall x, y | 0 <= x < y < |b.chunks[k]|
      ensures b.chunks[k][x] != b.chunks[k][y]
    {
      assert InPlan(b, Slot(k, x)) && InPlan(b, Slot(k, y));
      assert IndexOf(b, Slot(k, x)) == b.chunks[k][x] && IndexOf(b, Slot(k, y)) == b.chunks[k][y];
    }
  }

  /** What answering a whole chunk leaves at each index. */
  lemma ChunkAnswers(b: Batch, st: State, k: nat, outcomes: seq<Outcome>, slot: Slot)
    requires Planned(b) && Fits(b, st) && k < |b.chunks| && |outcomes| == |b.chunks[k]|
    requires InPlan(b, slot) && IndexOf(b, slot) < |b.items|
    ensures var r, i := AnsweredChunk(st, b.chunks[k], outcomes), IndexOf(b, slot);
            && (slot.chunk == k ==> r.results[i] == Some(outcomes[slot.at]) && r.writes[i] == st.writes[i] + 1)
            && (slot.chunk != k ==> r.results[i] == st.results[i] && r.writes[i] == st.writes[i])
  {
    var i, chunk := IndexOf(b, slot), b.chunks[k];
    ChunkIsDistinct(b, k);
    CountIsOne(chunk, i);
    if i in chunk {
      var at := PositionOf(chunk, i);
      assert InPlan(b, Slot(k, at)) && IndexOf(b, Slot(k, at)) == i;
    }
  }

  lemma ChunkLeavesRefused(b: Batch, st: State, k: nat, outcomes: seq<Outcome>, i: nat)
    requires Planned(b) && Fits(b, st) && k < |b.chunks| && |outcomes| == |b.chunks[k]|
    requires i < |b.items| && RefusedOk(b, st, i)
    ensures RefusedOk(b, AnsweredChunk(st, b.chunks[k], outcomes), i)
  {
    var chunk := b.chunks[k];
    ChunkIsDistinct(b, k);
    CountIsOne(chunk, i);
    if i in chunk {
      var at := PositionOf(chunk, i);
      assert InPlan(b, Slot(k, at)) && IndexOf(b, Slot(k, at)) == i;
    }
  }

  // ------------------------------------------------------------------- steps

  /** A step that only moves chunk `k` on, where every place of it is as its new stage says. */
  lemma WorkerMoves(b: Batch, was: Table, st: State, k: nat, worker: Worker)
    requires Planned(b) && Inv(b, was, st) && k < |b.chunks|
    requires worker.Drawn? || worker.Written? ==> |worker.slugs| == |b.chunks[k]|
    requires var st' := st.(workers := st.workers[k := worker]);
             forall s | InPlan(b, s) && IndexOf(b, s) < |b.items| && s.chunk == k :: SlotOk(b, st', s)
    ensures Inv(b, was, st.(workers := st.workers[k := worker]))
  {
    var st' := st.(workers := st.workers[k := worker]);
    forall s | InPlan(b, s) && IndexOf(b, s) < |b.items|
      ensures SlotOk(b, st', s)
    {
      if s.chunk != k {
        SlotStays(b, st, st', s);
      }
    }
    RefusalsStay(b, st, st');
    MinesStay(b, st, st');
  }

  lemma AnsweredSlot(b: Batch, st: State, k: nat, outcomes: seq<Outcome>, s: Slot)
    requires Planned(b) && Fits(b, st) && k < |b.chunks| && |outcomes| == |b.chunks[k]|
    requires InPlan(b, s) && IndexOf(b, s) < |b.items| && SlotOk(b, st, s)
    requires s.chunk == k ==> Unanswered(st, IndexOf(b, s)) && Truthful(st, s, outcomes[s.at])
    ensures SlotOk(b, AnsweredChunk(st, b.chunks[k], outcomes).(workers := st.workers[k := Ended]), s)
  {
    ChunkAnswers(b, st, k, outcomes, s);
    if s.chunk != k {
      SlotStays(b, st, AnsweredChunk(st, b.chunks[k], outcomes).(workers := st.workers[k := Ended]), s);
    }
  }

  /** Whether `outcomes` is a true answer for every place of chunk `k`, none of which has one yet. */
  ghost predicate TruthfulChunk(b: Batch, st: State, k: nat, outcomes: seq<Outcome>)
    requires Fits(b, st) && k < |b.chunks| && |outcomes| == |b.chunks[k]|
  {
    forall s | InPlan(b, s) && IndexOf(b, s) < |b.items| && s.chunk == k ::
      Unanswered(st, IndexOf(b, s)) && Truthful(st, s, outcomes[s.at])
  }

  lemma AnsweredSlots(b: Batch, st: State, k: nat, outcomes: seq<Outcome>)
    requires Planned(b) && Fits(b, st) && k < |b.chunks| && |outcomes| == |b.chunks[k]| && SlotsOk(b, st)
    requires TruthfulChunk(b, st, k, outcomes)
    ensures SlotsOk(b, AnsweredChunk(st, b.chunks[k], outcomes).(workers := st.workers[k := Ended]))
  {
    forall s | InPlan(b, s) && IndexOf(b, s) < |b.items|
      ensures SlotOk(b, AnsweredChunk(st, b.chunks[k], outcomes).(workers := st.workers[k := Ended]), s)
    {
      AnsweredSlot(b, st, k, outcomes, s);
    }
  }

  lemma AnsweredRefusals(b: Batch, st: State, k: nat, outcomes: seq<Outcome>)
    requires Planned(b) && Fits(b, st) && k < |b.chunks| && |outcomes| == |b.chunks[k]| && RefusalsOk(b, st)
    ensures RefusalsOk(b, AnsweredChunk(st, b.chunks[k], outcomes).(workers := st.workers[k := Ended]))
  {
    var st' := AnsweredChunk(st, b.chunks[k], outcomes).(workers := st.workers[k := Ended]);
    forall i | 0 <= i < |b.items|
      ensures RefusedOk(b, st', i)
    {
      ChunkLeavesRefused(b, st, k, outcomes, i);
    }
  }

  /** A step that answers the whole of chunk `k`. */
  lemma ChunkAnsweredKeeps(b: Batch, was: Table, st: State, k: nat, outcomes: seq<Outcome>)
    requires Planned(b) && Inv(b, was, st) && k < |b.chunks| && |outcomes| == |b.chunks[k]|
    requires TruthfulChunk(b, st, k, outcomes)
    ensures Inv(b, was, AnsweredChunk(st, b.chunks[k], outcomes).(workers := st.workers[k := Ended]))
  {
    AnsweredSlots(b, st, k, outcomes);
    AnsweredRefusals(b, st, k, outcomes);
    MinesStay(b, st, AnsweredChunk(st, b.chunks[k], outcomes).(workers := st.workers[k := Ended]));
  }

  /** Whether `outcome` is a true answer for `slot`, as the rows stand. */
  predicate Truthful(st: State, slot: Slot, outcome: Outcome)
  {
    match outcome
    case Params => false
    case Made(s, expiresAt, createdAt) =>
      && WrittenFor(st, slot, {s}) && s in st.table
      && st.table[s].expiresAt == expiresAt && st.table[s].createdAt == createdAt
    case _ => WrittenFor(st, slot, {})
  }

  lemma ReadKeeps(b: Batch, was: Table, st: State, k: nat)
    requires Planned(b) && Inv(b, was, st) && Enabled(b, st, ReadChunk(k))
    ensures Inv(b, was, Apply(b, st, ReadChunk(k)))
  {
    var slugs := st.workers[k].slugs;
    var outcomes := seq(|slugs|, at requires 0 <= at < |slugs| => ReadBack(st.table, slugs[at]));
    forall s | InPlan(b, s) && IndexOf(b, s) < |b.items| && s.chunk == k
      ensures Unanswered(st, IndexOf(b, s)) && Truthful(st, s, outcomes[s.at])
    {
      assert SlotOk(b, st, s);
      var slug := slugs[s.at];
      assert slug in {slug};
      assert MineOk(b, st, slug);
    }
    ChunkAnsweredKeeps(b, was, st, k, outcomes);
  }

  lemma UnavailableKeeps(b: Batch, was: Table, st: State, k: nat)
    requires Planned(b) && Inv(b, was, st) && k < |b.chunks| && st.workers[k].Drawn?
    ensures Inv(b, was, AnsweredChunk(st, b.chunks[k], seq(|b.chunks[k]|, _ => Backend)).(workers := st.workers[k := Ended]))
  {
    var outcomes := seq(|b.chunks[k]|, _ => Backend);
    forall s | InPlan(b, s) && IndexOf(b, s) < |b.items| && s.chunk == k
      ensures Unanswered(st, IndexOf(b, s)) && Truthful(st, s, outcomes[s.at])
    {
      assert SlotOk(b, st, s);
    }
    ChunkAnsweredKeeps(b, was, st, k, outcomes);
  }

  lemma {:induction false} PositionIs(slugs: seq<string>, at: nat)
    requires at < |slugs| && forall i, j | 0 <= i < j < |slugs| :: slugs[i] != slugs[j]
    ensures PositionOf(slugs, slugs[at]) == at
  {
    if at > 0 {
      assert slugs[0] != slugs[at];
      PositionIs(slugs[1..], at - 1);
    }
  }

  lemma WrittenKeepsRows(b: Batch, st: State, k: nat, expiresAt: Option<int>, createdAt: int, s: Slot)
    requires Fits(b, st) && k < |b.chunks| && st.workers[k].Drawn? && Fresh(st.table, st.workers[k].slugs)
    requires forall i <- b.chunks[k] :: i < |b.items|
    requires (forall m <- st.mine :: m in st.table) && s.chunk != k
    ensures KeepsRows(st, ChunkWritten(b, st, k, expiresAt, createdAt), s)
  {
  }

  lemma WrittenHere(b: Batch, st: State, k: nat, expiresAt: Option<int>, createdAt: int, s: Slot)
    requires Fits(b, st) && k < |b.chunks| && st.workers[k].Drawn? && Fresh(st.table, st.workers[k].slugs)
    requires forall i <- b.chunks[k] :: i < |b.items|
    requires InPlan(b, s) && s.chunk == k && WrittenFor(st, s, {})
    ensures WrittenFor(ChunkWritten(b, st, k, expiresAt, createdAt), s, {st.workers[k].slugs[s.at]})
  {
    var st', slugs := ChunkWritten(b, st, k, expiresAt, createdAt), st.workers[k].slugs;
    PositionIs(slugs, s.at);
    assert slugs[s.at] in slugs;
    forall m <- st'.mine.Keys + {slugs[s.at]}
      ensures (m in st'.mine && st'.mine[m] == s) <==> m in {slugs[s.at]}
    {
      if m in slugs {
        PositionIs(slugs, PositionOf(slugs, m));
      } else {
        assert m in st.mine.Keys + {};
      }
    }
  }

  lemma WrittenSlot(b: Batch, st: State, k: nat, expiresAt: Option<int>, createdAt: int, s: Slot)
    requires Fits(b, st) && k < |b.chunks| && st.workers[k].Drawn? && Fresh(st.table, st.workers[k].slugs)
    requires forall i <- b.chunks[k] :: i < |b.items|
    requires forall m <- st.mine :: m in st.table
    requires InPlan(b, s) && IndexOf(b, s) < |b.items| && SlotOk(b, st, s)
    ensures SlotOk(b, ChunkWritten(b, st, k, expiresAt, createdAt), s)
  {
    if s.chunk == k {
      WrittenHere(b, st, k, expiresAt, createdAt, s);
    } else {
      WrittenKeepsRows(b, st, k, expiresAt, createdAt, s);
      SlotStays(b, st, ChunkWritten(b, st, k, expiresAt, createdAt), s);
    }
  }

  lemma WrittenRow(b: Batch, st: State, k: nat, expiresAt: Option<int>, createdAt: int, m: string)
    requires Fits(b, st) && k < |b.chunks| && st.workers[k].Drawn? && forall i <- b.chunks[k] :: i < |b.items|
    requires m in ChunkWritten(b, st, k, expiresAt, createdAt).mine && (m in st.mine ==> MineOk(b, st, m))
    ensures MineOk(b, ChunkWritten(b, st, k, expiresAt, createdAt), m)
  {
    var slugs := st.workers[k].slugs;
    if m in slugs {
      var slot := Slot(k, PositionOf(slugs, m));
      assert InPlan(b, slot) && IndexOf(b, slot) == b.chunks[k][slot.at];
      assert b.chunks[k][slot.at] in b.chunks[k];
    }
  }

  lemma WrittenKeys(b: Batch, was: Table, st: State, k: nat, expiresAt: Option<int>, createdAt: int)
    requires Fits(b, st) && k < |b.chunks| && st.workers[k].Drawn? && forall i <- b.chunks[k] :: i < |b.items|
    requires KeysOk(was, st) && Fresh(st.table, st.workers[k].slugs)
    ensures KeysOk(was, ChunkWritten(b, st, k, expiresAt, createdAt))
  {
  }

  lemma WroteSlots(b: Batch, st: State, k: nat, expiresAt: Option<int>, createdAt: int)
    requires Fits(b, st) && SlotsOk(b, st) && MinesOk(b, st) && k < |b.chunks| && st.workers[k].Drawn?
    requires Fresh(st.table, st.workers[k].slugs) && forall i <- b.chunks[k] :: i < |b.items|
    ensures SlotsOk(b, ChunkWritten(b, st, k, expiresAt, createdAt))
  {
    MinesAreThere(b, st);
    forall s | InPlan(b, s) && IndexOf(b, s) < |b.items|
      ensures SlotOk(b, ChunkWritten(b, st, k, expiresAt, createdAt), s)
    {
      WrittenSlot(b, st, k, expiresAt, createdAt, s);
    }
  }

  lemma WroteRows(b: Batch, st: State, k: nat, expiresAt: Option<int>, createdAt: int)
    requires Fits(b, st) && MinesOk(b, st) && k < |b.chunks| && st.workers[k].Drawn?
    requires forall i <- b.chunks[k] :: i < |b.items|
    ensures MinesOk(b, ChunkWritten(b, st, k, expiresAt, createdAt))
  {
    forall m <- ChunkWritten(b, st, k, expiresAt, createdAt).mine
      ensures MineOk(b, ChunkWritten(b, st, k, expiresAt, createdAt), m)
    {
      WrittenRow(b, st, k, expiresAt, createdAt, m);
    }
  }

  lemma WroteKeeps(b: Batch, was: Table, st: State, k: nat, expiresAt: Option<int>, createdAt: int)
    requires Planned(b) && Inv(b, was, st) && k < |b.chunks| && st.workers[k].Drawn?
    requires Fresh(st.table, st.workers[k].slugs) && forall i <- b.chunks[k] :: i < |b.items|
    ensures Inv(b, was, ChunkWritten(b, st, k, expiresAt, createdAt))
  {
    WroteSlots(b, st, k, expiresAt, createdAt);
    WroteRows(b, st, k, expiresAt, createdAt);
    RefusalsStay(b, st, ChunkWritten(b, st, k, expiresAt, createdAt));
    WrittenKeys(b, was, st, k, expiresAt, createdAt);
  }

  /** One place of a chunk that fell back was tried: what that place and the others are now. */
  lemma TriedOwnSlot(b: Batch, st: State, step: Step)
    requires Planned(b) && Fits(b, st) && Enabled(b, st, step) && step.TryOne?
    requires forall m <- st.mine :: m in st.table
    requires InPlan(b, step.slot) && IndexOf(b, step.slot) < |b.items| && SlotOk(b, st, step.slot)
    ensures SlotOk(b, Apply(b, st, step), step.slot)
  {
    if step.insert.Wrote? {
      assert step.slug in [step.slug];
      assert WrittenFor(Apply(b, st, step), step.slot, {step.slug});
    }
  }

  lemma TriedSlot(b: Batch, st: State, step: Step, s: Slot)
    requires Planned(b) && Fits(b, st) && Enabled(b, st, step) && step.TryOne?
    requires forall m <- st.mine :: m in st.table
    requires InPlan(b, s) && IndexOf(b, s) < |b.items| && SlotOk(b, st, s)
    ensures SlotOk(b, Apply(b, st, step), s)
  {
    if s == step.slot {
      TriedOwnSlot(b, st, step);
    } else {
      assert IndexOf(b, s) != IndexOf(b, step.slot);
      SlotStays(b, st, Apply(b, st, step), s);
    }
  }

  lemma TriedSlots(b: Batch, st: State, step: Step)
    requires Planned(b) && Fits(b, st) && SlotsOk(b, st) && MinesOk(b, st) && Enabled(b, st, step) && step.TryOne?
    ensures SlotsOk(b, Apply(b, st, step))
  {
    MinesAreThere(b, st);
    forall s | InPlan(b, s) && IndexOf(b, s) < |b.items|
      ensures SlotOk(b, Apply(b, st, step), s)
    {
      TriedSlot(b, st, step, s);
    }
  }

  lemma TriedRows(b: Batch, st: State, step: Step)
    requires Planned(b) && Fits(b, st) && MinesOk(b, st) && Enabled(b, st, step) && step.TryOne?
    ensures MinesOk(b, Apply(b, st, step))
  {
    forall m <- Apply(b, st, step).mine
      ensures MineOk(b, Apply(b, st, step), m)
    {
      TriedRow(b, st, step, m);
    }
  }

  lemma TryKeeps(b: Batch, was: Table, st: State, step: Step)
    requires Planned(b) && Inv(b, was, st) && Enabled(b, st, step) && step.TryOne?
    ensures Inv(b, was, Apply(b, st, step))
  {
    TriedSlots(b, st, step);
    TriedRows(b, st, step);
    TriedRefusals(b, st, step);
    TriedKeys(b, was, st, step);
  }

  lemma TriedRefusals(b: Batch, st: State, step: Step)
    requires Planned(b) && Fits(b, st) && Enabled(b, st, step) && step.TryOne? && RefusalsOk(b, st)
    ensures RefusalsOk(b, Apply(b, st, step))
  {
    forall i | 0 <= i < |b.items|
      ensures RefusedOk(b, Apply(b, st, step), i)
    {
      assert RefusedOk(b, st, i);
      assert Accepted(b.declared, b.items[IndexOf(b, step.slot)]);
    }
  }

  lemma TriedRow(b: Batch, st: State, step: Step, m: string)
    requires Planned(b) && Fits(b, st) && Enabled(b, st, step) && step.TryOne?
    requires m in Apply(b, st, step).mine && (m in st.mine ==> MineOk(b, st, m))
    ensures MineOk(b, Apply(b, st, step), m)
  {
  }

  lemma TriedKeys(b: Batch, was: Table, st: State, step: Step)
    requires Planned(b) && Fits(b, st) && Enabled(b, st, step) && step.TryOne? && KeysOk(was, st)
    ensures KeysOk(was, Apply(b, st, step))
  {
    if step.insert.Wrote? {
      assert step.slug in [step.slug];
      assert Apply(b, st, step).mine.Keys == st.mine.Keys + {step.slug};
    }
  }

  lemma OtherSlots(b: Batch, st: State, slug: string, row: Row)
    requires Planned(b) && Fits(b, st) && SlotsOk(b, st) && MinesOk(b, st) && slug !in st.table
    ensures SlotsOk(b, st.(table := st.table[slug := row], foreign := st.foreign + {slug}))
  {
    var st' := st.(table := st.table[slug := row], foreign := st.foreign + {slug});
    MinesAreThere(b, st);
    forall s | InPlan(b, s) && IndexOf(b, s) < |b.items|
      ensures SlotOk(b, st', s)
    {
      OtherSlot(b, st, slug, row, s);
    }
  }

  lemma OtherKeeps(b: Batch, was: Table, st: State, slug: string, row: Row)
    requires Planned(b) && Inv(b, was, st) && slug !in st.table
    ensures Inv(b, was, st.(table := st.table[slug := row], foreign := st.foreign + {slug}))
  {
    var st' := st.(table := st.table[slug := row], foreign := st.foreign + {slug});
    MinesAreThere(b, st);
    MinesStay(b, st, st');
    OtherSlots(b, st, slug, row);
    RefusalsStay(b, st, st');
  }

  lemma OtherSlot(b: Batch, st: State, slug: string, row: Row, s: Slot)
    requires Fits(b, st) && InPlan(b, s) && IndexOf(b, s) < |b.items| && SlotOk(b, st, s)
    requires slug !in st.table
    ensures SlotOk(b, st.(table := st.table[slug := row], foreign := st.foreign + {slug}), s)
  {
    SlotStays(b, st, st.(table := st.table[slug := row], foreign := st.foreign + {slug}), s);
  }

  lemma FinishKeeps(b: Batch, was: Table, st: State, k: nat)
    requires Planned(b) && Inv(b, was, st) && Enabled(b, st, Finish(k))
    ensures Inv(b, was, Apply(b, st, Finish(k)))
  {
    forall s | InPlan(b, s) && IndexOf(b, s) < |b.items| && s.chunk == k
      ensures SlotOk(b, st.(workers := st.workers[k := Ended]), s)
    {
      assert SlotOk(b, st, s);
      assert IndexOf(b, s) in b.chunks[k];
    }
    WorkerMoves(b, was, st, k, Ended);
  }

  lemma StepKeeps(b: Batch, was: Table, st: State, step: Step)
    requires Planned(b) && Inv(b, was, st) && Enabled(b, st, step)
    ensures Inv(b, was, Apply(b, st, step))
  {
    match step
    case Draw(k, slugs) => WorkerMoves(b, was, st, k, Drawn(slugs));
    case InsertChunk(k, insert, expiresAt, createdAt) =>
      InPlanIndexes(b, k);
      if insert.Wrote? {
        WroteKeeps(b, was, st, k, expiresAt, createdAt);
      } else if insert.Taken? {
        WorkerMoves(b, was, st, k, Falling);
      } else {
        UnavailableKeeps(b, was, st, k);
      }
    case ReadChunk(k) => ReadKeeps(b, was, st, k);
    case TryOne(_, _, _, _, _) => TryKeeps(b, was, st, step);
    case Finish(k) => FinishKeeps(b, was, st, k);
    case Other(slug, row) => OtherKeeps(b, was, st, slug, row);
  }

  lemma StartsOk(b: Batch, was: Table)
    requires Planned(b)
    ensures Inv(b, was, Started(b, was))
  {
    forall s | InPlan(b, s) && IndexOf(b, s) < |b.items|
      ensures SlotOk(b, Started(b, was), s)
    {
      assert Accepted(b.declared, b.items[IndexOf(b, s)]);
    }
  }

  lemma {:induction false} RunKeeps(b: Batch, was: Table, st: State, run: seq<Step>)
    requires Planned(b) && Inv(b, was, st) && Valid(b, st, run)
    ensures Inv(b, was, Final(b, st, run))
    decreases |run|
  {
    if run != [] {
      StepKeeps(b, was, st, run[0]);
      RunKeeps(b, was, Apply(b, st, run[0]), run[1..]);
    }
  }

  lemma ReachableIsOk(b: Batch, was: Table, st: State)
    requires Planned(b) && Reachable(b, was, st)
    ensures Inv(b, was, st)
  {
    var run: seq<Step> :| Valid(b, Started(b, was), run) && Final(b, Started(b, was), run) == st;
    StartsOk(b, was);
    RunKeeps(b, was, Started(b, was), run);
  }

  // ---------------------------------------------------------------- theorems

  predicate IsMade(st: State, i: nat)
  {
    i < |st.results| && st.results[i].Some? && st.results[i].value.Made?
  }

  /** Once every chunk is through, each item has its answer, written once, and Params is the answer of what was refused. */
  lemma EveryItemIsAnsweredOnce(b: Batch, was: Table, st: State, i: nat)
    requires Planned(b) && Reachable(b, was, st) && Over(st) && i < |b.items|
    ensures |st.results| == |st.writes| == |b.items| && st.results[i].Some? && st.writes[i] == 1
    ensures st.results[i] == Some(Params) <==> !Accepted(b.declared, b.items[i])
  {
    ReachableIsOk(b, was, st);
    if Accepted(b.declared, b.items[i]) {
      var s :| InPlan(b, s) && IndexOf(b, s) == i;
      assert SlotOk(b, st, s) && st.workers[s.chunk] in st.workers;
    } else {
      assert RefusedOk(b, st, i);
    }
  }

  /** Never, at any moment, is an answer written over. */
  lemma NoAnswerIsOverwritten(b: Batch, was: Table, st: State, i: nat)
    requires Planned(b) && Reachable(b, was, st) && i < |b.items|
    ensures |st.writes| == |b.items| && st.writes[i] <= 1
  {
    ReachableIsOk(b, was, st);
    if Accepted(b.declared, b.items[i]) {
      var s :| InPlan(b, s) && IndexOf(b, s) == i;
      assert SlotOk(b, st, s);
    } else {
      assert RefusedOk(b, st, i);
    }
  }

  lemma MadeIsAccepted(b: Batch, was: Table, st: State, i: nat)
    requires Planned(b) && Reachable(b, was, st) && IsMade(st, i)
    ensures i < |b.items| && Accepted(b.declared, b.items[i])
  {
    ReachableIsOk(b, was, st);
    assert RefusedOk(b, st, i);
  }

  /** A place whose answer is a made link wrote that link's row. */
  lemma SlotWroteItsRow(b: Batch, st: State, s: Slot)
    requires Fits(b, st) && InPlan(b, s) && IndexOf(b, s) < |b.items| && SlotOk(b, st, s) && IsMade(st, IndexOf(b, s))
    ensures var made := st.results[IndexOf(b, s)].value;
            && made.slug in st.mine && st.mine[made.slug] == s && made.slug in st.table
            && st.table[made.slug].expiresAt == made.expiresAt && st.table[made.slug].createdAt == made.createdAt
  {
    var slug := st.results[IndexOf(b, s)].value.slug;
    assert slug in {slug};
  }

  /** The place a made link was written for. */
  lemma MadeIsMine(b: Batch, was: Table, st: State, i: nat)
    requires Planned(b) && Reachable(b, was, st) && IsMade(st, i)
    ensures i < |b.items| && Accepted(b.declared, b.items[i])
    ensures var made := st.results[i].value;
            && made.slug in st.mine && InPlan(b, st.mine[made.slug]) && IndexOf(b, st.mine[made.slug]) == i
            && made.slug in st.table
            && st.table[made.slug].expiresAt == made.expiresAt && st.table[made.slug].createdAt == made.createdAt
  {
    MadeIsAccepted(b, was, st, i);
    ReachableIsOk(b, was, st);
    var s :| InPlan(b, s) && IndexOf(b, s) == i;
    SlotWroteItsRow(b, st, s);
  }

  /** A link answered as made is a row of the table, under its own slug, holding the data of its own item. */
  lemma MadeNamesItsRow(b: Batch, was: Table, st: State, i: nat)
    requires Planned(b) && Reachable(b, was, st) && IsMade(st, i)
    ensures i < |b.items| && Accepted(b.declared, b.items[i])
    ensures var made := st.results[i].value;
            && made.slug in st.table && made.slug !in was
            && st.table[made.slug] == Row(b.declared.name, b.items[i], made.expiresAt, made.createdAt)
  {
    MadeIsMine(b, was, st, i);
    ReachableIsOk(b, was, st);
    assert MineOk(b, st, st.results[i].value.slug);
  }

  /** No two items are answered with one slug. */
  lemma MadeSlugsDiffer(b: Batch, was: Table, st: State, i: nat, j: nat)
    requires Planned(b) && Reachable(b, was, st) && IsMade(st, i) && IsMade(st, j) && i != j
    ensures st.results[i].value.slug != st.results[j].value.slug
  {
    MadeIsMine(b, was, st, i);
    MadeIsMine(b, was, st, j);
  }

  function MadeIndexes(st: State): set<nat>
  {
    set i | 0 <= i < |st.results| && IsMade(st, i)
  }

  /** A place whose chunk is through answers with any row written for it. */
  lemma RowOfAnEndedPlace(b: Batch, st: State, s: Slot, slug: string)
    requires Fits(b, st) && InPlan(b, s) && IndexOf(b, s) < |b.items| && SlotOk(b, st, s) && st.workers[s.chunk].Ended?
    requires slug in st.mine && st.mine[slug] == s
    ensures IsMade(st, IndexOf(b, s)) && st.results[IndexOf(b, s)].value.slug == slug
  {
    assert Closed(st, s, IndexOf(b, s));
  }

  /** A row of this call belongs to an item answered with it, once every chunk is through. */
  lemma RowIsAnswered(b: Batch, was: Table, st: State, slug: string) returns (i: nat)
    requires Planned(b) && Reachable(b, was, st) && Over(st) && slug in st.mine
    ensures i in MadeIndexes(st) && st.results[i].value.slug == slug
  {
    ReachableIsOk(b, was, st);
    assert MineOk(b, st, slug);
    var s := st.mine[slug];
    i := IndexOf(b, s);
    assert st.workers[s.chunk] in st.workers;
    RowOfAnEndedPlace(b, st, s, slug);
  }

  lemma {:induction false} SameSize(ids: set<nat>, slugs: set<string>, slugOf: map<nat, string>)
    requires ids <= slugOf.Keys
    requires forall i <- ids :: slugOf[i] in slugs
    requires forall s <- slugs :: exists i <- ids :: slugOf[i] == s
    requires forall i, j | i in ids && j in ids && i != j :: slugOf[i] != slugOf[j]
    ensures |ids| == |slugs|
    decreases |ids|
  {
    if i :| i in ids {
      var s := slugOf[i];
      forall t <- slugs - {s}
        ensures exists j <- ids - {i} :: slugOf[j] == t
      {
        var j :| j in ids && slugOf[j] == t;
        assert j in ids - {i};
      }
      SameSize(ids - {i}, slugs - {s}, slugOf);
    } else if s :| s in slugs {
      assert false;
    }
  }

  /** The rows this call added are as many as the links it answered, and no more were added but by others. */
  lemma AsManyRowsAsLinks(b: Batch, was: Table, st: State)
    requires Planned(b) && Reachable(b, was, st) && Over(st)
    ensures |st.mine| == |MadeIndexes(st)|
    ensures forall slug :: slug in st.table && slug !in was && slug !in st.foreign <==>
                           exists i <- MadeIndexes(st) :: st.results[i].value.slug == slug
  {
    ReachableIsOk(b, was, st);
    var slugOf := map i <- MadeIndexes(st) :: i := st.results[i].value.slug;
    forall i <- MadeIndexes(st)
      ensures slugOf[i] in st.mine
    {
      MadeIsMine(b, was, st, i);
    }
    forall s <- st.mine
      ensures exists i <- MadeIndexes(st) :: slugOf[i] == s
    {
      var i := RowIsAnswered(b, was, st, s);
      assert slugOf[i] == s;
    }
    forall i, j | i in MadeIndexes(st) && j in MadeIndexes(st) && i != j
      ensures slugOf[i] != slugOf[j]
    {
      MadeSlugsDiffer(b, was, st, i, j);
    }
    SameSize(MadeIndexes(st), st.mine.Keys, slugOf);
    assert |st.mine| == |st.mine.Keys|;
  }
}
