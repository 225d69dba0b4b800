/** What each answer of a bulk creation means: which items are refused, and what it takes for one not to be made. */
module LinkBatchAnswers {
  import opened Results
  import opened LinkPattern
  import opened LinkRender
  import opened LinkBatch
  import opened LinkBatchSafety

  // ------------------------------------------------------------- what is accepted

  /** A number there is a finite text for. */
  predicate IsFinite(value: LinkValue)
  {
    value.Number? && value.text != "NaN" && value.text != "Infinity" && value.text != "-Infinity"
  }

  /**
   * An item is accepted exactly when its template can be written with it, and each field declared is there, with a
   * value of its kind: any text, a finite number, or a flag. What is declared of no field is not looked at.
   */
  lemma AcceptedIff(d: Declared, data: Data)
    ensures Accepted(d, data) <==>
              && (d.template.Some? ==> Render(d.template.value, data).Some?)
              && (d.fields.Some? ==> forall name <- d.fields.value ::
                    && name in data
                    && (d.fields.value[name] == StringField ==> data[name].Text?)
                    && (d.fields.value[name] == NumberField ==> IsFinite(data[name]))
                    && (d.fields.value[name] == BooleanField ==> data[name].Flag?))
  {
    if d.template.Some? {
      AcceptsWhatItRenders(d.template.value, data);
    }
  }

  // -------------------------------------------------------------- single steps

  /** A write the table did not answer. */
  predicate Unanswering(step: Step)
  {
    (step.InsertChunk? && step.insert.Unavailable?) || (step.TryOne? && step.insert.Unavailable?)
  }

  /** A slug drawn for place `s` alone that was taken. */
  predicate TakenFor(step: Step, s: Slot)
  {
    step.TryOne? && step.slot == s && step.insert.Taken?
  }

  /** What a step may leave of the answer of place `s`. */
  predicate AnswerMoves(b: Batch, st: State, st': State, step: Step, s: Slot)
    requires Fits(b, st) && Fits(b, st') && InPlan(b, s) && IndexOf(b, s) < |b.items|
  {
    var was, now := st.results[IndexOf(b, s)], st'.results[IndexOf(b, s)];
    && Tries(st', s) == Tries(st, s) + (if TakenFor(step, s) then 1 else 0)
    && (TakenFor(step, s) ==> was == None && now == if Tries(st', s) == 5 then Some(SlugConflict) else None)
    && (!TakenFor(step, s) && now != was ==> was == None && now != Some(SlugConflict))
    && (now == Some(Backend) && was != Some(Backend) ==> Unanswering(step))
  }

  /** A chunk written at once is read back row by row, and each of its rows is there. */
  lemma ReadBackFinds(b: Batch, was: Table, st: State, k: nat, s: Slot)
    requires Planned(b) && Inv(b, was, st) && Enabled(b, st, ReadChunk(k)) && InPlan(b, s) && s.chunk == k
    requires IndexOf(b, s) < |b.items|
    ensures st.results[IndexOf(b, s)] == None && ReadBack(st.table, st.workers[k].slugs[s.at]).Made?
  {
    assert SlotOk(b, st, s);
    var slug := st.workers[k].slugs[s.at];
    assert slug in {slug};
    assert MineOk(b, st, slug);
  }

  lemma ReadMoves(b: Batch, was: Table, st: State, k: nat, s: Slot)
    requires Planned(b) && Inv(b, was, st) && Enabled(b, st, ReadChunk(k)) && InPlan(b, s) && IndexOf(b, s) < |b.items|
    requires Fits(b, Apply(b, st, ReadChunk(k)))
    ensures AnswerMoves(b, st, Apply(b, st, ReadChunk(k)), ReadChunk(k), s)
  {
    var slugs := st.workers[k].slugs;
    var outcomes := seq(|slugs|, at requires 0 <= at < |slugs| => ReadBack(st.table, slugs[at]));
    ChunkAnswers(b, st, k, outcomes, s);
    if s.chunk == k {
      ReadBackFinds(b, was, st, k, s);
    }
  }

  lemma InsertMoves(b: Batch, was: Table, st: State, step: Step, s: Slot)
    requires Planned(b) && Inv(b, was, st) && step.InsertChunk? && Enabled(b, st, step)
    requires InPlan(b, s) && IndexOf(b, s) < |b.items| && Fits(b, Apply(b, st, step))
    ensures AnswerMoves(b, st, Apply(b, st, step), step, s)
  {
    var k := step.chunk;
    assert SlotOk(b, st, s);
    if step.insert.Unavailable? {
      ChunkAnswers(b, st, k, seq(|b.chunks[k]|, _ => Backend), s);
    }
  }

  lemma TryMoves(b: Batch, was: Table, st: State, step: Step, s: Slot)
    requires Planned(b) && Inv(b, was, st) && step.TryOne? && Enabled(b, st, step)
    requires InPlan(b, s) && IndexOf(b, s) < |b.items| && Fits(b, Apply(b, st, step))
    ensures AnswerMoves(b, st, Apply(b, st, step), step, s)
  {
    if s != step.slot {
      assert IndexOf(b, s) != IndexOf(b, step.slot);
    }
  }

  lemma StepMoves(b: Batch, was: Table, st: State, step: Step, s: Slot)
    requires Planned(b) && Inv(b, was, st) && Enabled(b, st, step) && InPlan(b, s) && IndexOf(b, s) < |b.items|
    requires Fits(b, Apply(b, st, step))
    ensures AnswerMoves(b, st, Apply(b, st, step), step, s)
  {
    match step
    case InsertChunk(_, _, _, _) => InsertMoves(b, was, st, step, s);
    case ReadChunk(k) => ReadMoves(b, was, st, k, s);
    case TryOne(_, _, _, _, _) => TryMoves(b, was, st, step, s);
    case _ =>
  }

  // --------------------------------------------------------------------- runs

  /** How many slugs drawn for place `s` alone were taken. */
  function TakenCount(run: seq<Step>, s: Slot): nat
  {
    if run == [] then 0 else (if TakenFor(run[0], s) then 1 else 0) + TakenCount(run[1..], s)
  }

  /** The table answered every write. */
  predicate AlwaysAnswered(run: seq<Step>)
  {
    run == [] || (!Unanswering(run[0]) && AlwaysAnswered(run[1..]))
  }

  /** A place was answered as out of slugs exactly when five were taken, and is never tried a sixth time. */
  predicate FiveOk(b: Batch, st: State, s: Slot)
    requires Fits(b, st) && InPlan(b, s) && IndexOf(b, s) < |b.items|
  {
    Tries(st, s) <= 5 && (Tries(st, s) == 5 <==> st.results[IndexOf(b, s)] == Some(SlugConflict))
  }

  lemma {:induction false} RunMoves(b: Batch, was: Table, st: State, run: seq<Step>, s: Slot)
    requires Planned(b) && Inv(b, was, st) && Valid(b, st, run) && InPlan(b, s) && IndexOf(b, s) < |b.items|
    requires FiveOk(b, st, s)
    ensures var e := Final(b, st, run);
            && Fits(b, e) && FiveOk(b, e, s)
            && Tries(e, s) == Tries(st, s) + TakenCount(run, s)
            && (AlwaysAnswered(run) && e.results[IndexOf(b, s)] == Some(Backend) ==>
                  st.results[IndexOf(b, s)] == Some(Backend))
    decreases |run|
  {
    if run != [] {
      StepKeeps(b, was, st, run[0]);
      StepMoves(b, was, st, run[0], s);
      RunMoves(b, was, Apply(b, st, run[0]), run[1..], s);
    }
  }

  /**
   * Over any run: an item is answered as out of slugs exactly when five slugs drawn for it alone were taken, and, while
   * the table answers every write, none is answered as if it had not.
   */
  lemma WhyAnItemIsNotMade(b: Batch, was: Table, run: seq<Step>, s: Slot)
    requires Planned(b) && Valid(b, Started(b, was), run) && InPlan(b, s)
    ensures var e, i := Final(b, Started(b, was), run), IndexOf(b, s);
            && i < |e.results| && TakenCount(run, s) <= 5
            && (e.results[i] == Some(SlugConflict) <==> TakenCount(run, s) == 5)
            && (AlwaysAnswered(run) ==> e.results[i] != Some(Backend))
            && e.results[i] != Some(Params)
  {
    var st := Started(b, was);
    assert IndexOf(b, s) < |b.items| && Accepted(b.declared, b.items[IndexOf(b, s)]);
    StartsOk(b, was);
    RunMoves(b, was, st, run, s);
    RunKeeps(b, was, st, run);
    assert SlotOk(b, Final(b, st, run), s);
  }

  /** So once it is over, with every write answered, each accepted item is made, unless five slugs of its were taken. */
  lemma AnsweredTableMakesAll(b: Batch, was: Table, run: seq<Step>, s: Slot)
    requires Planned(b) && Valid(b, Started(b, was), run) && InPlan(b, s)
    requires AlwaysAnswered(run) && Over(Final(b, Started(b, was), run)) && TakenCount(run, s) < 5
    ensures IsMade(Final(b, Started(b, was), run), IndexOf(b, s))
  {
    var e := Final(b, Started(b, was), run);
    WhyAnItemIsNotMade(b, was, run, s);
    assert Reachable(b, was, e);
    EveryItemIsAnsweredOnce(b, was, e, IndexOf(b, s));
  }
}
