/** When `has` answers what the table holds: over every run, for one process and for many, and exactly where it does not. */
module AudienceTruth {
  import opened Results
  import opened AudienceKey
  import opened AudienceCache
  import opened AudienceFleet

  // ------------------------------------------------------- the main theorem

  /** The answer of `has` is the plain table's own. */
  ghost predicate TellsTheTruth(s: Fleet, id: nat, op: Op)
    requires id in s.locals && op.Has?
  {
    IsMember(op.member) ==>
      Perform(s.shared, s.locals[id], op).answer == Belongs(TableHolds(s.shared, op.feature, op.audience, op.member))
  }

  lemma TrueStateTellsTheTruth(s: Fleet, id: nat, op: Op)
    requires id in s.locals && op.Has? && GenerationsOk(s, op.audience) && CacheTrue(s, op.feature, op.audience)
    requires ReaderCurrent(s, id, op.audience)
    ensures TellsTheTruth(s, id, op)
  {
    var view := ViewOf(s, id, op.audience);
    if !RecordLive(s.shared, op.audience) && view != 0 {
      assert OnLapsed(s, id, op.audience);
    }
    assert TrueUnder(s.shared, op.feature, op.audience, view);
  }

  /**
   * Over any run of any number of processes, restarts and clock advances included, every `has` asked by a
   * process whose view of the generation is current answers exactly what the table holds.
   */
  lemma HasTellsTheTruth(d: Declarations, now: int, table: Table, run: seq<Step>, id: nat, op: Op)
    requires Distinct(d) && TruthfulRun(d, Uncached(now, table), run)
    requires Performable(Uncached(now, table), run)
    requires op.Has? && Enabled(d, Final(Uncached(now, table), run), Act(id, op))
    requires ReaderCurrent(Final(Uncached(now, table), run), id, op.audience)
    ensures TellsTheTruth(Final(Uncached(now, table), run), id, op)
  {
    UncachedIsTrue(d, now, table);
    TruthfulRunKeeps(d, Uncached(now, table), run);
    var s := Final(Uncached(now, table), run);
    assert GenerationsOk(s, (op.feature, op.audience).1);
    assert CacheTrue(s, (op.feature, op.audience).0, (op.feature, op.audience).1);
    TrueStateTellsTheTruth(s, id, op);
  }

  /** Two seconds after its generation last moved, and again two seconds after its record lapsed, every view is current. */
  lemma ViewsSettle(d: Declarations, now: int, table: Table, run: seq<Step>, feature: string, audience: string, id: nat)
    requires Distinct(d) && OrderlyRun(d, Uncached(now, table), run) && (feature, audience) in d
    requires Performable(Uncached(now, table), run) && id in Final(Uncached(now, table), run).locals
    ensures var s := Final(Uncached(now, table), run);
            var known := audience in s.shared.generations;
            && (!known ==> ViewOf(s, id, audience) == 0)
            && (known && s.shared.generations[audience].at + LOCAL_GENERATION_TTL <= s.shared.now ==>
                  ReaderCurrent(s, id, audience))
            && (known && s.shared.generations[audience].until + LOCAL_GENERATION_TTL <= s.shared.now ==>
                  ViewOf(s, id, audience) == 0)
  {
    UncachedIsTrue(d, now, table);
    OrderlyRunKeeps(d, Uncached(now, table), run);
    var s := Final(Uncached(now, table), run);
    assert GenerationsOk(s, (feature, audience).1);
    assert LocalsOk(s, audience);
  }

  // ------------------------------------------------- two seconds are enough

  /** Nobody retired the audience in the last two seconds, and its record did not lapse in them. */
  predicate Settled(s: Shared, audience: string)
  {
    audience in s.generations ==>
      var record := s.generations[audience];
      && record.at + LOCAL_GENERATION_TTL <= s.now
      && (s.now < record.until || record.until + LOCAL_GENERATION_TTL <= s.now)
  }

  /** A run whose writes keep two seconds away from other calls' clears and from lapses, and that clears once a millisecond. */
  ghost predicate SettledRun(d: Declarations, s: Fleet, run: seq<Step>)
    decreases |run|
  {
    run == [] ||
    (&& Enabled(d, s, run[0])
     && (run[0].Act? ==>
           && !HalfWritten(run[0].op)
           && (Bumps(run[0].op) ==> ClockAdvanced(s.shared, run[0].op.audience))
           && (Writes(run[0].op) ==> Settled(s.shared, run[0].op.audience)))
     && SettledRun(d, Apply(s, run[0]), run[1..]))
  }

  /** Once an audience is settled every process is current, as a reader and as a writer. */
  lemma SettledIsCurrent(s: Fleet, id: nat, audience: string)
    requires id in s.locals && GenerationsOk(s, audience) && Settled(s.shared, audience)
    ensures WriterCurrent(s, id, audience) && ReaderCurrent(s, id, audience)
  {
    assert LocalsOk(s, audience);
  }

  lemma {:induction false} SettledRunIsTruthful(d: Declarations, s: Fleet, run: seq<Step>)
    requires Distinct(d) && SettledRun(d, s, run) && AllGenerationsOk(d, s)
    ensures TruthfulRun(d, s, run) && Performable(s, run) && AllGenerationsOk(d, Final(s, run))
    decreases |run|
  {
    if run != [] {
      if run[0].Act? {
        var audience := run[0].op.audience;
        assert GenerationsOk(s, (run[0].op.feature, audience).1);
        if Bumps(run[0].op) {
          SpacedBumpIsTheClock(s, run[0].id, audience);
        }
        if Writes(run[0].op) {
          SettledIsCurrent(s, run[0].id, audience);
        }
      }
      StepKeeps(d, s, run[0]);
      SettledRunIsTruthful(d, Apply(s, run[0]), run[1..]);
    }
  }

  /**
   * Any number of processes, no view of theirs asked about: when no single write and not the read itself comes within
   * two seconds of a clear of its audience or of a lapse of its record, `has` answers what the table holds.
   */
  lemma SettledTellsTheTruth(d: Declarations, now: int, table: Table, run: seq<Step>, id: nat, op: Op)
    requires Distinct(d) && SettledRun(d, Uncached(now, table), run)
    requires Performable(Uncached(now, table), run)
    requires op.Has? && Enabled(d, Final(Uncached(now, table), run), Act(id, op))
    requires Settled(Final(Uncached(now, table), run).shared, op.audience)
    ensures TellsTheTruth(Final(Uncached(now, table), run), id, op)
  {
    UncachedIsTrue(d, now, table);
    SettledRunIsTruthful(d, Uncached(now, table), run);
    assert GenerationsOk(Final(Uncached(now, table), run), (op.feature, op.audience).1);
    SettledIsCurrent(Final(Uncached(now, table), run), id, op.audience);
    HasTellsTheTruth(d, now, table, run, id, op);
  }

  // ------------------------------------------------- a process reads its own calls

  /** What `has` answers of a membership that is to lapse at `expiresAt`, never when there is none. */
  predicate StillIn(expiresAt: Option<int>, now: int)
  {
    expiresAt.Some? ==> now < expiresAt.value
  }

  /** A question about one member of the audience a call was about. */
  predicate AsksAfter(op: Op, ask: Op)
  {
    ask.Has? && ask.feature == op.feature && ask.audience == op.audience && IsMember(ask.member)
  }

  lemma BulkCallIsSeen(d: Declarations, s: Fleet, id: nat, op: Op, ask: Op)
    requires Distinct(d) && AllGenerationsOk(d, s) && Enabled(d, s, Act(id, op)) && Orderly(s, Act(id, op))
    requires Bumps(op) && AsksAfter(op, ask)
    ensures TellsTheTruth(Apply(s, Act(id, op)), id, ask)
  {
    var s', a := Apply(s, Act(id, op)), op.audience;
    assert GenerationsOk(s, (op.feature, a).1);
    var table := s'.shared.table;
    BumpKeeps(s, id, op.feature, a, table, op.jitter);
    assert s' == AfterBump(s, id, a, table, op.jitter);
    TrueStateTellsTheTruth(s', id, ask);
  }

  /**
   * Over any orderly run of any number of processes: once a process cleared an audience, its own `has` answers that
   * nobody belongs; once it put many in, that each of them does, unless they were to lapse by now.
   */
  lemma BulkCallIsRead(d: Declarations, now: int, table: Table, run: seq<Step>, id: nat, op: Op, ask: Op)
    requires Distinct(d) && OrderlyRun(d, Uncached(now, table), run) && Performable(Uncached(now, table), run)
    requires var s := Final(Uncached(now, table), run); Enabled(d, s, Act(id, op)) && Orderly(s, Act(id, op))
    requires AsksAfter(op, ask)
    requires (op.Clear? && !op.refused) || (op.AddMany? && (forall m <- op.members :: IsMember(m)) && op.refusedAt == None)
    ensures var after := Apply(Final(Uncached(now, table), run), Act(id, op));
            op.Clear? ==> Perform(after.shared, after.locals[id], ask).answer == Belongs(false)
    ensures var after := Apply(Final(Uncached(now, table), run), Act(id, op));
            op.AddMany? && ask.member in op.members ==>
              Perform(after.shared, after.locals[id], ask).answer == Belongs(StillIn(op.expiresAt, after.shared.now))
  {
    UncachedIsTrue(d, now, table);
    OrderlyRunKeeps(d, Uncached(now, table), run);
    var s := Final(Uncached(now, table), run);
    if op.Clear? {
      ClearDropsEveryRow(s.shared, s.locals[id], op, ask.member);
      BulkCallIsSeen(d, s, id, op, ask);
    } else if ask.member in op.members {
      AddManyWritesItsRows(s.shared, s.locals[id], op, ask.member);
      BulkCallIsSeen(d, s, id, op, ask);
    }
  }

  /** A call that moves one row moves no generation, so a current writer is a current reader after it. */
  lemma WriterReadsOn(s: Fleet, id: nat, op: Op)
    requires id in s.locals && Writes(op) && LocalsOk(s, op.audience) && WriterCurrent(s, id, op.audience)
    ensures ReaderCurrent(Apply(s, Act(id, op)), id, op.audience)
  {
    AskKeepsViews(s, id, op.audience);
  }

  lemma WriteIsSeen(d: Declarations, s: Fleet, id: nat, op: Op, ask: Op)
    requires Distinct(d) && AllGenerationsOk(d, s) && AllTrue(d, s)
    requires Enabled(d, s, Act(id, op)) && Truthful(s, Act(id, op)) && Writes(op) && AsksAfter(op, ask)
    ensures TellsTheTruth(Apply(s, Act(id, op)), id, ask)
  {
    var s' := Apply(s, Act(id, op));
    StepKeeps(d, s, Act(id, op));
    assert GenerationsOk(s, (op.feature, op.audience).1);
    assert GenerationsOk(s', (op.feature, op.audience).1);
    assert CacheTrue(s', (op.feature, op.audience).0, (op.feature, op.audience).1);
    WriterReadsOn(s, id, op);
    TrueStateTellsTheTruth(s', id, ask);
  }

  /**
   * Over any truthful run: once a process added a member its own `has` answers that it belongs, unless it was to lapse
   * by now; once it removed one, that it does not.
   */
  lemma WriteIsRead(d: Declarations, now: int, table: Table, run: seq<Step>, id: nat, op: Op, ask: Op)
    requires Distinct(d) && TruthfulRun(d, Uncached(now, table), run) && Performable(Uncached(now, table), run)
    requires var s := Final(Uncached(now, table), run); Enabled(d, s, Act(id, op)) && Truthful(s, Act(id, op))
    requires (op.Add? || op.Remove?) && !op.refused && AsksAfter(op, ask) && ask.member == op.member
    ensures var after := Apply(Final(Uncached(now, table), run), Act(id, op));
            Perform(after.shared, after.locals[id], ask).answer
            == Belongs(op.Add? && StillIn(op.expiresAt, after.shared.now))
  {
    UncachedIsTrue(d, now, table);
    TruthfulRunKeeps(d, Uncached(now, table), run);
    var s := Final(Uncached(now, table), run);
    WriteIsSeen(d, s, id, op, ask);
    if op.Add? {
      AddWritesItsRow(s.shared, s.locals[id], op);
    } else {
      RemoveDropsItsRow(s.shared, s.locals[id], op);
    }
  }

  // ------------------------------------------------------------ one process

  /** A run of one process, whose bulk writes do not stop half way and whose generations stay within a day of the clock. */
  ghost predicate OneProcessRun(d: Declarations, s: Fleet, run: seq<Step>)
    decreases |run|
  {
    run == [] ||
    (&& Enabled(d, s, run[0])
     && (run[0].Act? || run[0].Join? ==> run[0].id == 0)
     && (run[0].Act? ==>
           && !HalfWritten(run[0].op)
           && (Bumps(run[0].op) ==>
                 NextGeneration(s.shared, s.locals[0], run[0].op.audience) < s.shared.now + GENERATION_TTL))
     && OneProcessRun(d, Apply(s, run[0]), run[1..]))
  }

  /** A process alone always holds the record's own generation. */
  ghost predicate Alone(d: Declarations, s: Fleet)
  {
    && s.locals.Keys <= {0}
    && (forall x <- d :: HoldsTheRecord(s, x.1))
  }

  lemma AloneIsCurrent(d: Declarations, s: Fleet, feature: string, audience: string)
    requires Alone(d, s) && 0 in s.locals && (feature, audience) in d
    ensures WriterCurrent(s, 0, audience) && ReaderCurrent(s, 0, audience)
  {
    assert (feature, audience) in d && (feature, audience).1 == audience;
    forall other <- s.locals
      ensures other == 0
    {
    }
  }

  lemma AloneMovesPast(s: Fleet, audience: string)
    requires 0 in s.locals && GenerationsOk(s, audience) && ReaderCurrent(s, 0, audience)
    ensures audience in s.shared.generations ==>
              s.shared.generations[audience].value < NextGeneration(s.shared, s.locals[0], audience)
  {
  }

  /** A process alone holds the generation its record is at, for one audience. */
  predicate HoldsTheRecord(s: Fleet, audience: string)
  {
    0 in s.locals && RecordLive(s.shared, audience) && LocalFresh(s.shared, s.locals[0], audience) ==>
      s.locals[0][audience].value == s.shared.generations[audience].value
  }

  lemma ActHoldsTheRecord(s: Fleet, op: Op)
    requires 0 in s.locals && HoldsTheRecord(s, op.audience)
    ensures HoldsTheRecord(Apply(s, Act(0, op)), op.audience)
  {
  }

  lemma TimeHoldsTheRecord(s: Fleet, step: Step, audience: string)
    requires !step.Act? && HoldsTheRecord(s, audience) && GenerationsOk(s, audience)
    ensures HoldsTheRecord(Apply(s, step), audience)
  {
  }

  lemma StepKeepsAlone(d: Declarations, s: Fleet, step: Step)
    requires Distinct(d) && Enabled(d, s, step) && Alone(d, s) && AllGenerationsOk(d, s)
    requires step.Act? || step.Join? ==> step.id == 0
    ensures Alone(d, Apply(s, step))
  {
    forall x <- d
      ensures HoldsTheRecord(Apply(s, step), x.1)
    {
      assert GenerationsOk(s, x.1) && HoldsTheRecord(s, x.1);
      if !step.Act? {
        TimeHoldsTheRecord(s, step, x.1);
      } else if x.1 == step.op.audience {
        ActHoldsTheRecord(s, step.op);
      } else {
        ActLeavesOthers(d, s, 0, step.op, x.0, x.1);
      }
    }
  }

  lemma {:induction false} OneProcessRunIsTruthful(d: Declarations, s: Fleet, run: seq<Step>)
    requires Distinct(d) && OneProcessRun(d, s, run) && Alone(d, s) && AllGenerationsOk(d, s)
    ensures TruthfulRun(d, s, run) && Performable(s, run) && Alone(d, Final(s, run))
    decreases |run|
  {
    if run != [] {
      var step := run[0];
      if step.Act? {
        assert GenerationsOk(s, (step.op.feature, step.op.audience).1);
        AloneIsCurrent(d, s, step.op.feature, step.op.audience);
        AloneMovesPast(s, step.op.audience);
      }
      StepKeeps(d, s, step);
      StepKeepsAlone(d, s, step);
      OneProcessRunIsTruthful(d, Apply(s, step), run[1..]);
    }
  }

  /**
   * One process asking, writing, clearing, reaping, restarting and letting time pass in any order: every `has`
   * through the cache answers what the table holds, lapses of the generation record included.
   */
  lemma OneProcessTellsTheTruth(d: Declarations, now: int, table: Table, run: seq<Step>, op: Op)
    requires Distinct(d) && OneProcessRun(d, Uncached(now, table), run)
    requires Performable(Uncached(now, table), run)
    requires op.Has? && Enabled(d, Final(Uncached(now, table), run), Act(0, op))
    ensures TellsTheTruth(Final(Uncached(now, table), run), 0, op)
  {
    UncachedIsTrue(d, now, table);
    OneProcessRunIsTruthful(d, Uncached(now, table), run);
    AloneIsCurrent(d, Final(Uncached(now, table), run), op.feature, op.audience);
    HasTellsTheTruth(d, now, table, run, 0, op);
  }

  // --------------------------------------------------------- retired entries

  /** The clock has moved past every generation the audience was ever at. */
  predicate ClockAdvanced(s: Shared, audience: string)
  {
    0 < s.now && (audience in s.generations ==> s.generations[audience].value < s.now)
  }

  /** A run in which every audience is cleared at most once a millisecond. */
  ghost predicate SpacedRun(d: Declarations, s: Fleet, run: seq<Step>)
    decreases |run|
  {
    run == [] ||
    (&& Enabled(d, s, run[0])
     && (run[0].Act? && Bumps(run[0].op) ==> ClockAdvanced(s.shared, run[0].op.audience))
     && SpacedRun(d, Apply(s, run[0]), run[1..]))
  }

  lemma SpacedBumpIsTheClock(s: Fleet, id: nat, audience: string)
    requires id in s.locals && GenerationsOk(s, audience) && ClockAdvanced(s.shared, audience)
    ensures NextGeneration(s.shared, s.locals[id], audience) == s.shared.now && BumpOk(s, id, audience)
  {
    assert ViewOf(s, id, audience) < s.shared.now;
  }

  lemma {:induction false} SpacedRunIsOrderly(d: Declarations, s: Fleet, run: seq<Step>)
    requires Distinct(d) && SpacedRun(d, s, run) && AllGenerationsOk(d, s)
    ensures OrderlyRun(d, s, run) && Performable(s, run) && AllGenerationsOk(d, Final(s, run))
    decreases |run|
  {
    if run != [] {
      if run[0].Act? && Bumps(run[0].op) {
        assert GenerationsOk(s, (run[0].op.feature, run[0].op.audience).1);
        SpacedBumpIsTheClock(s, run[0].id, run[0].op.audience);
      }
      StepKeeps(d, s, run[0]);
      SpacedRunIsOrderly(d, Apply(s, run[0]), run[1..]);
    }
  }

  /** What holds ever after a clear of `audience` at `cleared`, whoever made it. */
  ghost predicate Since(s: Fleet, audience: string, cleared: int)
  {
    && 0 < cleared <= s.shared.now
    && audience in s.shared.generations
    && cleared <= s.shared.generations[audience].at && cleared <= s.shared.generations[audience].value
    && (forall id <- s.locals :: SinceLocal(s.locals[id], audience, cleared))
    && (forall g, m :: SinceEntry(s.shared, audience, cleared, g, m))
  }

  /** An entry of a generation the clear opened was loaded after it, and an older one of generation zero is about to go. */
  ghost predicate SinceEntry(s: Shared, audience: string, cleared: int, generation: int, member: string)
  {
    var e := EntryAt(s, audience, generation, member);
    e.Some? ==>
      && (cleared <= generation ==> cleared <= e.value.loadedAt)
      && (generation == 0 && e.value.loadedAt <= cleared ==> e.value.until < cleared + ENTRY_TTL + ENTRY_SPREAD * SECOND)
  }

  lemma ClearOpensSince(s: Fleet, id: nat, op: Op)
    requires id in s.locals && Bumps(op) && GenerationsOk(s, op.audience) && ClockAdvanced(s.shared, op.audience)
    ensures Since(Apply(s, Act(id, op)), op.audience, s.shared.now)
  {
    var a, s' := op.audience, Apply(s, Act(id, op));
    SpacedBumpIsTheClock(s, id, a);
    forall g, m
      ensures SinceEntry(s'.shared, a, s.shared.now, g, m)
    {
      assert EntryOk(s.shared, a, g, m);
      assert EntryAt(s'.shared, a, g, m) == EntryAt(s.shared, a, g, m);
    }
  }

  lemma StepKeepsSinceEntries(d: Declarations, s: Fleet, step: Step, feature: string, audience: string, cleared: int)
    requires Distinct(d) && Enabled(d, s, step) && (feature, audience) in d
    requires Since(s, audience, cleared)
    ensures forall g, m :: SinceEntry(Apply(s, step).shared, audience, cleared, g, m)
  {
    var s' := Apply(s, step);
    if step.Act? && step.op.audience != audience {
      ActLeavesOthers(d, s, step.id, step.op, feature, audience);
    }
    assert IsKey((feature, audience).1);
    forall g, m
      ensures SinceEntry(s'.shared, audience, cleared, g, m)
    {
      assert SinceEntry(s.shared, audience, cleared, g, m);
      if step.Act? && step.op.audience == audience {
        var op, view := step.op, ViewOf(s, step.id, audience);
        if op.Has? && IsMember(op.member) {
          FillFrame(s.shared, op.feature, audience, view, op.member, op.jitter, audience, g, m);
        } else if Writes(op) && IsMember(op.member) {
          EvictFrame(s.shared.(table := WrittenTable(s.shared, op)), audience, view, op.member, audience, g, m);
        } else {
          assert EntryAt(s'.shared, audience, g, m) == EntryAt(s.shared, audience, g, m);
        }
      }
    }
  }

  ghost predicate SinceLocal(locals: Locals, audience: string, cleared: int)
  {
    audience in locals && cleared < locals[audience].at ==>
      cleared <= locals[audience].value || (locals[audience].value == 0 && cleared + GENERATION_TTL <= locals[audience].at)
  }

  lemma StepKeepsSinceLocals(d: Declarations, s: Fleet, step: Step, feature: string, audience: string, cleared: int)
    requires Distinct(d) && Enabled(d, s, step) && (feature, audience) in d
    requires GenerationsOk(s, audience) && Since(s, audience, cleared)
    requires step.Act? && Bumps(step.op) ==> ClockAdvanced(s.shared, step.op.audience)
    ensures forall id <- Apply(s, step).locals :: SinceLocal(Apply(s, step).locals[id], audience, cleared)
  {
    var s' := Apply(s, step);
    if step.Act? && step.op.audience != audience {
      ActLeavesOthers(d, s, step.id, step.op, feature, audience);
    } else if step.Act? && Bumps(step.op) {
      SpacedBumpIsTheClock(s, step.id, audience);
    }
    forall id <- s'.locals
      ensures SinceLocal(s'.locals[id], audience, cleared)
    {
      if id in s.locals {
        assert SinceLocal(s.locals[id], audience, cleared);
      }
    }
  }

  lemma StepKeepsSince(d: Declarations, s: Fleet, step: Step, feature: string, audience: string, cleared: int)
    requires Distinct(d) && Enabled(d, s, step) && (feature, audience) in d
    requires GenerationsOk(s, audience) && Since(s, audience, cleared)
    requires step.Act? && Bumps(step.op) ==> ClockAdvanced(s.shared, step.op.audience)
    ensures Since(Apply(s, step), audience, cleared)
  {
    StepKeepsSinceEntries(d, s, step, feature, audience, cleared);
    StepKeepsSinceLocals(d, s, step, feature, audience, cleared);
    if step.Act? && step.op.audience != audience {
      ActLeavesOthers(d, s, step.id, step.op, feature, audience);
    } else if step.Act? && Bumps(step.op) {
      SpacedBumpIsTheClock(s, step.id, audience);
    }
  }

  lemma {:induction false} RunKeepsSince(d: Declarations, s: Fleet, run: seq<Step>, feature: string, audience: string, cleared: int)
    requires Distinct(d) && SpacedRun(d, s, run) && (feature, audience) in d
    requires AllGenerationsOk(d, s) && Since(s, audience, cleared)
    ensures Performable(s, run) && AllGenerationsOk(d, Final(s, run)) && Since(Final(s, run), audience, cleared)
    decreases |run|
  {
    SpacedRunIsOrderly(d, s, run);
    if run != [] {
      assert GenerationsOk(s, (feature, audience).1);
      if run[0].Act? && Bumps(run[0].op) {
        assert GenerationsOk(s, (run[0].op.feature, run[0].op.audience).1);
        SpacedBumpIsTheClock(s, run[0].id, run[0].op.audience);
      }
      StepKeeps(d, s, run[0]);
      StepKeepsSince(d, s, run[0], feature, audience, cleared);
      RunKeepsSince(d, Apply(s, run[0]), run[1..], feature, audience, cleared);
    }
  }

  /**
   * Two seconds after any process retired an audience, no process ever reads an entry that was there when it did,
   * in whatever order calls, restarts and clock advances come. It reads under a generation that held no entry at all
   * at that moment, or, once the generation record has lapsed and reads as zero again, an entry loaded strictly
   * later: a day outlasts every entry and the two-second window together.
   */
  lemma RetiredIsNeverReadAgain(d: Declarations, now: int, table: Table, before: seq<Step>, id: nat, op: Op,
                                after: seq<Step>, reader: nat, member: string)
    requires Distinct(d) && Bumps(op)
    requires SpacedRun(d, Uncached(now, table), before) && Performable(Uncached(now, table), before)
    requires var s := Final(Uncached(now, table), before);
             && Enabled(d, s, Act(id, op)) && ClockAdvanced(s.shared, op.audience)
             && SpacedRun(d, Apply(s, Act(id, op)), after) && Performable(Apply(s, Act(id, op)), after)
             && var end := Final(Apply(s, Act(id, op)), after);
                reader in end.locals && s.shared.now + LOCAL_GENERATION_TTL <= end.shared.now
    ensures var s := Final(Uncached(now, table), before);
            var end := Final(Apply(s, Act(id, op)), after);
            var view := ViewOf(end, reader, op.audience);
            var e := EntryAt(end.shared, op.audience, view, member);
            e.Some? ==>
              && s.shared.now <= e.value.loadedAt
              && (if view == 0 then s.shared.now < e.value.loadedAt
                  else forall m :: EntryAt(s.shared, op.audience, view, m) == None)
  {
    UncachedIsTrue(d, now, table);
    SpacedRunIsOrderly(d, Uncached(now, table), before);
    var s := Final(Uncached(now, table), before);
    var a, cleared := op.audience, s.shared.now;
    assert GenerationsOk(s, (op.feature, a).1);
    SpacedBumpIsTheClock(s, id, a);
    StepKeeps(d, s, Act(id, op));
    ClearOpensSince(s, id, op);
    RunKeepsSince(d, Apply(s, Act(id, op)), after, op.feature, a, cleared);
    var end := Final(Apply(s, Act(id, op)), after);
    assert GenerationsOk(end, (op.feature, a).1);
    var view := ViewOf(end, reader, a);
    assert SinceEntry(end.shared, a, cleared, view, member);
    forall m
      ensures cleared <= view ==> EntryAt(s.shared, a, view, m) == None
    {
      assert EntryOk(s.shared, a, view, m);
    }
  }

  // ------------------------------------------------ where the cache misleads

  /** A `has` that a current process asks at the end of a truthful run, and that the table would answer otherwise. */
  ghost predicate Misled(d: Declarations, now: int, table: Table, run: seq<Step>, id: nat, op: Op)
  {
    var s := Uncached(now, table);
    && TruthfulRun(d, s, run) && Performable(s, run) && op.Has?
    && Enabled(d, Final(s, run), Act(id, op)) && ReaderCurrent(Final(s, run), id, op.audience)
    && !TellsTheTruth(Final(s, run), id, op)
  }

  /** Every `has` of every truthful run over these declarations answers what the table holds. */
  ghost predicate AlwaysTellsTheTruth(d: Declarations)
  {
    forall now: int, table: Table, run: seq<Step>, id: nat, op: Op :: !Misled(d, now, table, run, id, op)
  }

  lemma TwoSteps(d: Declarations, s: Fleet, first: Step, second: Step)
    requires Enabled(d, s, first) && Truthful(s, first)
    requires Enabled(d, Apply(s, first), second) && Truthful(Apply(s, first), second)
    ensures var run := [first, second];
            TruthfulRun(d, s, run) && Performable(s, run) && Final(s, run) == Apply(Apply(s, first), second)
  {
    var run := [first, second];
    var s1, s2 := Apply(s, first), Apply(Apply(s, first), second);
    assert run[1..] == [second] && run[1..][1..] == [];
    assert TruthfulRun(d, s2, []) && Performable(s2, []) && Final(s2, []) == s2;
    assert TruthfulRun(d, s1, run[1..]) && Performable(s1, run[1..]) && Final(s1, run[1..]) == s2;
  }

  /** Two features that declare one key read each other's memberships, whatever the key. */
  lemma SharedKeyMisleads(d: Declarations, feature: string, other: string, audience: string)
    requires (feature, audience) in d && (other, audience) in d && feature != other && IsKey(audience)
    ensures !AlwaysTellsTheTruth(d)
  {
    var mine, theirs := Has(feature, audience, "m", 0, false), Has(other, audience, "m", 0, false);
    var table: Table := map[Pk(feature, audience, "m") := Row(None)];
    var s0 := Uncached(0, table);
    var run := [Join(0), Act(0, mine)];
    var s1 := Apply(s0, run[0]);
    var s2 := Apply(s1, run[1]);
    assert Units("m") == 1 by {
      assert "m"[1..] == "";
    }
    assert IsMember("m");
    FillFrame(s1.shared, feature, audience, 0, "m", 0, audience, 0, "m");
    TwoSteps(d, s0, Join(0), Act(0, mine));
    assert ViewOf(s2, 0, audience) == 0;
    assert EntryAt(s2.shared, audience, 0, "m") == Some(Entry(Some(Row(None)), ENTRY_TTL, 0));
    assert Enabled(d, s2, Act(0, theirs)) && ReaderCurrent(s2, 0, audience);
    assert !TellsTheTruth(s2, 0, theirs);
    assert Misled(d, 0, table, run, 0, theirs);
  }

  /**
   * The exact condition on declarations: the cache always tells the truth precisely when no audience key is
   * declared by two features. The cache entry carries the key and not the feature.
   */
  lemma TruthNeedsDistinctKeys(d: Declarations)
    requires forall x <- d :: IsKey(x.1)
    ensures AlwaysTellsTheTruth(d) <==> Distinct(d)
  {
    if Distinct(d) {
      forall now: int, table: Table, run: seq<Step>, id: nat, op: Op
        ensures !Misled(d, now, table, run, id, op)
      {
        var s := Uncached(now, table);
        if TruthfulRun(d, s, run) && Performable(s, run) && op.Has?
           && Enabled(d, Final(s, run), Act(id, op)) && ReaderCurrent(Final(s, run), id, op.audience) {
          HasTellsTheTruth(d, now, table, run, id, op);
        }
      }
    } else {
      var x, y :| x in d && y in d && x.1 == y.1 && x.0 != y.0;
      SharedKeyMisleads(d, x.0, y.0, x.1);
    }
  }

  /**
   * Every bulk write that stopped half way can mislead: there is a table and a process that asked about its
   * first member just before, and is answered from the cache just after.
   */
  lemma HalfWrittenMisleads(d: Declarations, op: Op) returns (s: Fleet)
    requires IsKey(op.audience) && Allowed(d, op) && HalfWritten(op)
    ensures exists table: Table, run: seq<Step> ::
              && TruthfulRun(d, Uncached(0, table), run) && Performable(Uncached(0, table), run)
              && Final(Uncached(0, table), run) == s
    ensures Enabled(d, s, Act(0, op))
    ensures !TellsTheTruth(Apply(s, Act(0, op)), 0, Has(op.feature, op.audience, op.members[0], 0, false))
  {
    var f, a, m := op.feature, op.audience, op.members[0];
    var row := Row(op.expiresAt);
    var table: Table := if HasExpired(row, 0) then map[Pk(f, a, m) := Row(None)] else map[];
    var ask := Has(f, a, m, 0, false);
    var s0 := Uncached(0, table);
    var run := [Join(0), Act(0, ask)];
    var s1 := Apply(s0, run[0]);
    s := Apply(s1, run[1]);
    TwoSteps(d, s0, Join(0), Act(0, ask));
    FillFrame(s1.shared, f, a, 0, m, 0, a, 0, m);
    var after := Apply(s, Act(0, op));
    var count := WrittenCount(op.members, op.refusedAt);
    assert op.members[..count][0] == m;
    assert m in op.members[..count];
    PutAllWritesEachMember(s.shared.table, f, a, op.members[..count], row);
    assert RowAt(after.shared.table, f, a, m) == Some(row);
    assert ViewOf(after, 0, a) == 0;
    assert EntryAt(after.shared, a, 0, m) == EntryAt(s.shared, a, 0, m);
  }
}
