/** What every step of one runner keeps, and what that says about the occurrences a job took. */
module CronInvariants {
  import opened Results
  import opened CronSchedule
  import opened CronSlotLock
  import opened CronState

  // ------------------------------------------------------------ single steps

  lemma TakeKeepsTheChain(a: Armed, now: int)
    requires Chained(a)
    ensures Chained(TakeIfDue(a, now).armed)
  {
    var schedule := a.job.schedule;
    if schedule.Interval? {
      NextRunIsTheNextGridPoint(schedule.every, now, NextRun(schedule, now).value);
    }
    var b := TakeIfDue(a, now).armed;
    if |b.taken| > |a.taken| {
      var slot := NextRunAt(a, now).value;
      if schedule.Interval? {
        AfterSlotStaysOnGrid(schedule.every, slot, now);
      }
      forall k | 0 <= k < |b.taken|
        ensures Link(schedule, b.next, b.taken, k)
      {
        if k < |a.taken| {
          assert Link(schedule, a.next, a.taken, k);
        }
      }
    }
  }

  lemma TouchKeeps(r: Replica, i: nat, a: Armed)
    requires RunnerInv(r) && i < |r.jobs|
    requires a.job == r.jobs[i].job && a.token == r.jobs[i].token && Chained(a)
    ensures RunnerInv(r.(jobs := r.jobs[i := a]))
  {
  }

  lemma FireKeeps(r: Replica, i: nat, slot: int)
    requires RunnerInv(r) && i < |r.jobs| && r.jobs[i].token == 0
    ensures RunnerInv(Fired(r, i, slot))
  {
    var r' := Fired(r, i, slot);
    assert Chained(r.jobs[i]) && Chained(r'.jobs[i]);
    assert r.counter + 1 !in r.runs;
  }

  lemma DeclaredIsPositive(r: Replica)
    requires RunnerInv(r)
    ensures Positive(r)
  {
  }

  /** The runs a walk queues were due, and named by the schedule of a job that was not running. */
  ghost predicate QueuedWell(r: Replica, r': Replica, now: int)
    requires Positive(r)
  {
    && |r'.jobs| == |r.jobs|
    && (forall j | 0 <= j < |r.jobs| :: r'.jobs[j].job == r.jobs[j].job)
    && (forall j | 0 <= j < |r.jobs| && r.jobs[j].token != 0 :: r'.jobs[j].token != 0)
    && r.counter <= r'.counter && r'.gates == r.gates && r'.running == r.running && r'.loops == r.loops
    && (forall t <- r.runs :: t in r'.runs && r'.runs[t] == r.runs[t])
    && (forall t <- r'.runs | t !in r.runs ::
          && r'.runs[t].job < |r.jobs| && r'.runs[t].phase == Queued && r'.runs[t].slot <= now
          && r.jobs[r'.runs[t].job].token == 0
          && Nameable(r.jobs[r'.runs[t].job].job.schedule, r'.runs[t].slot))
  }

  /** A slot a look finds due is one the schedule names. */
  lemma DueIsNameable(a: Armed, now: int)
    requires Chained(a) && (a.job.schedule.Interval? ==> 0 < a.job.schedule.every)
    requires TakeIfDue(a, now).Look? && TakeIfDue(a, now).due.Some?
    ensures TakeIfDue(a, now).due.value <= now && Nameable(a.job.schedule, TakeIfDue(a, now).due.value)
  {
    TakeKeepsTheChain(a, now);
    var b := TakeIfDue(a, now).armed;
    assert Link(b.job.schedule, b.next, b.taken, |b.taken| - 1);
  }

  lemma VisitKeepsTheRunner(r: Replica, i: nat, now: int)
    requires RunnerInv(r) && Positive(r) && i < |r.jobs|
    ensures RunnerInv(Visited(r, i, now).replica)
  {
    var look := TakeIfDue(r.jobs[i], now);
    TakeKeepsTheChain(r.jobs[i], now);
    var r1 := r.(jobs := r.jobs[i := look.armed]);
    TouchKeeps(r, i, look.armed);
    if look.Look? && look.due.Some? && look.armed.token == 0 {
      FireKeeps(r1, i, look.due.value);
    }
  }

  lemma WidenQueued(r: Replica, r1: Replica, r2: Replica, now: int)
    requires Positive(r) && Positive(r1)
    requires QueuedWell(r, r1, now) && QueuedWell(r1, r2, now)
    ensures QueuedWell(r, r2, now)
  {
  }

  lemma TouchQueuesWell(r: Replica, i: nat, a: Armed, now: int)
    requires RunnerInv(r) && Positive(r) && i < |r.jobs| && a.job == r.jobs[i].job && a.token == r.jobs[i].token
    ensures Positive(r.(jobs := r.jobs[i := a])) && QueuedWell(r, r.(jobs := r.jobs[i := a]), now)
  {
  }

  lemma FireQueuesWell(r: Replica, i: nat, slot: int, now: int)
    requires RunnerInv(r) && Positive(r) && i < |r.jobs| && r.jobs[i].token == 0
    requires slot <= now && Nameable(r.jobs[i].job.schedule, slot)
    ensures QueuedWell(r, Fired(r, i, slot), now)
  {
    assert r.counter + 1 !in r.runs;
  }

  lemma VisitQueuesWell(r: Replica, i: nat, now: int)
    requires RunnerInv(r) && Positive(r) && i < |r.jobs|
    ensures QueuedWell(r, Visited(r, i, now).replica, now)
  {
    var look := TakeIfDue(r.jobs[i], now);
    var r1 := r.(jobs := r.jobs[i := look.armed]);
    TouchQueuesWell(r, i, look.armed, now);
    if look.Look? && look.due.Some? && look.armed.token == 0 {
      assert Chained(r.jobs[i]);
      DueIsNameable(r.jobs[i], now);
      TakeKeepsTheChain(r.jobs[i], now);
      TouchKeeps(r, i, look.armed);
      FireQueuesWell(r1, i, look.due.value, now);
      WidenQueued(r, r1, Fired(r1, i, look.due.value), now);
    }
  }

  lemma VisitKeeps(r: Replica, i: nat, now: int)
    requires RunnerInv(r) && Positive(r) && i < |r.jobs|
    ensures RunnerInv(Visited(r, i, now).replica)
    ensures QueuedWell(r, Visited(r, i, now).replica, now)
  {
    VisitKeepsTheRunner(r, i, now);
    VisitQueuesWell(r, i, now);
  }

  lemma {:induction false} WalkKeeps(r: Replica, i: nat, now: int)
    requires RunnerInv(r) && Positive(r) && i <= |r.jobs|
    ensures RunnerInv(Walk(r, i, now).replica)
    ensures QueuedWell(r, Walk(r, i, now).replica, now)
    decreases |r.jobs| - i
  {
    if i < |r.jobs| {
      var turn := Visited(r, i, now);
      VisitKeeps(r, i, now);
      if !turn.crashed {
        DeclaredIsPositive(turn.replica);
        WalkKeeps(turn.replica, i + 1, now);
        WidenQueued(r, turn.replica, Walk(turn.replica, i + 1, now).replica, now);
      }
    }
  }

  /** A step that moves runs between phases keeps the runner as soon as its gates match. */
  lemma PhasesKeepTheRunner(r: Replica, r': Replica)
    requires RunnerInv(r) && GatesMatchRuns(r')
    requires r'.jobs == r.jobs && r'.counter == r.counter && r'.runs.Keys == r.runs.Keys
    requires forall t <- r.runs :: r'.runs[t].job == r.runs[t].job
    ensures RunnerInv(r')
  {
  }

  /** One gate let run `token` in or out, and that run alone changed its phase. */
  lemma OneGateMoves(r: Replica, r': Replica, token: nat, g: nat, held: set<nat>)
    requires GatesMatchRuns(r) && token in r.runs && g == r.runs[token].gate < |r.gates|
    requires r'.gates == r.gates[g := r.gates[g].(held := held)] && |held| <= r.gates[g].limit
    requires token in r'.runs && r'.runs == r.runs[token := r'.runs[token]] && r'.runs[token].gate == g
    requires held == if r'.runs[token].phase in {Admitted, Running} then r.gates[g].held + {token} else r.gates[g].held - {token}
    ensures GatesMatchRuns(r')
  {
    forall h, t | 0 <= h < |r'.gates|
      ensures t in r'.gates[h].held <==> t in r'.runs && r'.runs[t].gate == h && r'.runs[t].phase in {Admitted, Running}
    {
      assert t in r.gates[h].held <==> t in r.runs && r.runs[t].gate == h && r.runs[t].phase in {Admitted, Running};
    }
  }

  lemma EnterKeeps(r: Replica, token: nat)
    requires RunnerInv(r) && CanEnter(r, token)
    ensures RunnerInv(Entered(r, token))
  {
    var g := r.runs[token].gate;
    assert token !in r.gates[g].held;
    OneGateMoves(r, Entered(r, token), token, g, r.gates[g].held + {token});
    PhasesKeepTheRunner(r, Entered(r, token));
  }

  lemma BeginKeeps(r: Replica, token: nat)
    requires RunnerInv(r) && InPhase(r, token, Admitted)
    ensures RunnerInv(Begun(r, token))
  {
    var g := r.runs[token].gate;
    assert r.gates[g].held + {token} == r.gates[g].held;
    OneGateMoves(r, Begun(r, token), token, g, r.gates[g].held);
    PhasesKeepTheRunner(r, Begun(r, token));
  }

  lemma LeaveKeeps(r: Replica, token: nat)
    requires RunnerInv(r) && (InPhase(r, token, Admitted) || InPhase(r, token, Running))
    ensures RunnerInv(Left(r, token))
  {
    var g := r.runs[token].gate;
    var held := r.gates[g].held;
    assert |held - {token}| <= |held|;
    OneGateMoves(r, Left(r, token), token, g, held - {token});
    PhasesKeepTheRunner(r, Left(r, token));
  }

  lemma EndKeeps(r: Replica, token: nat)
    requires RunnerInv(r) && InPhase(r, token, Released)
    ensures RunnerInv(Ended(r, token))
  {
    var i := r.runs[token].job;
    var a := r.jobs[i];
    var b := a.(token := 0);
    assert Chained(a) && Chained(b);
    assert r.jobs[i].token == token;
    assert Ended(r, token).jobs == r.jobs[i := b];
  }

  /** No finish ever frees a token it did not set: the guard of `endRun` holds in every state a runner reaches. */
  lemma EveryFinishOwnsItsToken(r: Replica, token: nat)
    requires RunnerInv(r) && InPhase(r, token, Released)
    ensures r.jobs[r.runs[token].job].token == token
    ensures Ended(r, token).jobs[r.runs[token].job].token == 0
    ensures forall j | 0 <= j < |r.jobs| && j != r.runs[token].job :: Ended(r, token).jobs[j] == r.jobs[j]
  {
  }

  /** A job never has two runs between `beginRun` and `endRun`, and says it runs exactly while it has one. */
  lemma OneRunPerJob(r: Replica, i: nat)
    requires RunnerInv(r) && i < |r.jobs|
    ensures forall t <- r.runs, u <- r.runs | r.runs[t].job == i && r.runs[u].job == i :: t == u
    ensures r.jobs[i].token != 0 <==> exists t <- r.runs :: r.runs[t].job == i
  {
    if r.jobs[i].token != 0 {
      assert r.jobs[i].token in r.runs && r.runs[r.jobs[i].token].job == i;
    }
  }

  lemma StartKeeps(r: Replica, maxConcurrent: nat)
    requires RunnerInv(r)
    ensures RunnerInv(Started(r, maxConcurrent)) && RunnerInv(Stopped(r))
  {
    if !r.running {
      OneMoreGateKeeps(r, Gate(maxConcurrent, {}));
    }
    assert GatesMatchRuns(Stopped(r));
  }

  lemma OneMoreGateKeeps(r: Replica, gate: Gate)
    requires RunnerInv(r) && gate.held == {}
    ensures RunnerInv(r.(running := true, loops := r.loops + 1, gates := r.gates + [gate]))
  {
  }

  lemma RegisterKeeps(r: Replica, job: Scheduled, clock: Option<int>)
    requires RunnerInv(r) && Declared(job.schedule)
    ensures Registered(r, job, clock).Success? ==> RunnerInv(Registered(r, job, clock).value)
  {
    if job.schedule.Interval? && clock.Some? {
      NextRunIsTheNextGridPoint(job.schedule.every, clock.value, NextRun(job.schedule, clock.value).value);
    }
    if Registered(r, job, clock).Success? {
      var a := Registered(r, job, clock).value.jobs[|r.jobs|];
      assert Chained(a);
      OneMoreJobKeeps(r, a);
    }
  }

  lemma OneMoreJobKeeps(r: Replica, a: Armed)
    requires RunnerInv(r) && Chained(a) && a.token == 0
    requires forall i | 0 <= i < |r.jobs| :: r.jobs[i].job.name != a.job.name
    ensures RunnerInv(r.(jobs := r.jobs + [a]))
  {
  }

  // --------------------------------------------- the occurrences one job took

  lemma NextSlotIsLater(schedule: Schedule, next: Option<int>, taken: seq<Taken>, k: nat)
    requires History(schedule, next, taken) && k < |taken|
    ensures taken[k].slot < SlotOf(next, taken, k + 1)
    ensures taken[k].now < SlotOf(next, taken, k + 1)
  {
    assert Link(schedule, next, taken, k);
    if schedule.Interval? {
      AfterSlotIsLeast(schedule.every, taken[k].slot, taken[k].now, 1);
    } else {
      NextRunIsAhead(schedule, taken[k].now);
    }
  }

  /** Taken occurrences strictly increase, whatever the schedule and however late the loop was. */
  lemma {:induction false} SlotsStrictlyIncrease(schedule: Schedule, next: Option<int>, taken: seq<Taken>, i: nat, j: nat)
    requires History(schedule, next, taken) && i < j <= |taken|
    ensures SlotOf(next, taken, i) < SlotOf(next, taken, j)
    decreases j - i
  {
    NextSlotIsLater(schedule, next, taken, j - 1);
    if i < j - 1 {
      SlotsStrictlyIncrease(schedule, next, taken, i, j - 1);
    }
  }

  /** Grid point `g` was taken as occurrence `k`. */
  predicate TakenAs(taken: seq<Taken>, g: int, k: nat)
  {
    k < |taken| && taken[k].slot == g
  }

  /** Grid point `g` lay between occurrence `k` and the one after it, and was already past when `k` was taken. */
  predicate SkippedAfter(next: int, taken: seq<Taken>, g: int, k: nat)
  {
    k < |taken| && taken[k].slot < g < SlotOf(Some(next), taken, k + 1) && g <= taken[k].now
  }

  /** Point `g` lies from occurrence `k` on and before the one after it. */
  predicate InCell(next: int, taken: seq<Taken>, g: int, k: nat)
  {
    k < |taken| && taken[k].slot <= g < SlotOf(Some(next), taken, k + 1)
  }

  lemma {:induction false} CellOf(schedule: Schedule, next: int, taken: seq<Taken>, g: int, n: nat) returns (k: nat)
    requires History(schedule, Some(next), taken) && 0 < n <= |taken|
    requires taken[0].slot <= g < SlotOf(Some(next), taken, n)
    ensures k < n && InCell(next, taken, g, k)
  {
    if taken[n - 1].slot <= g {
      k := n - 1;
    } else {
      k := CellOf(schedule, next, taken, g, n - 1);
    }
  }

  lemma CellsAreDisjoint(schedule: Schedule, next: int, taken: seq<Taken>, g: int, k: nat, l: nat)
    requires History(schedule, Some(next), taken)
    requires InCell(next, taken, g, k) && InCell(next, taken, g, l)
    ensures k >= l
  {
    if k < l {
      if k + 1 < l {
        SlotsStrictlyIncrease(schedule, Some(next), taken, k + 1, l);
      }
      assert false;
    }
  }

  /** The occurrence after the one taken is the least there is past the clock that took it: none is passed over. */
  lemma NoOccurrenceIsPassedOver(schedule: Schedule, next: Option<int>, taken: seq<Taken>, k: nat, t: int)
    requires History(schedule, next, taken) && k < |taken|
    ensures Occurs(schedule, taken[k].now, SlotOf(next, taken, k + 1))
    ensures Occurs(schedule, taken[k].now, t) ==> SlotOf(next, taken, k + 1) <= t
  {
    var slot, now := taken[k].slot, taken[k].now;
    assert Link(schedule, next, taken, k);
    if schedule.Interval? {
      CatchUpMeetsRegistration(schedule.every, slot, now);
      NextRunIsAhead(schedule, now);
      if Occurs(schedule, now, t) {
        NextRunIsLeast(schedule, now, t);
      }
    } else {
      AfterSlotIsTheNextOccurrence(schedule, slot, now, t);
    }
  }

  /** An instant of the schedule inside a cell is the slot taken there, or was past when that slot was taken. */
  lemma InsideIsTakenOrPast(schedule: Schedule, next: int, taken: seq<Taken>, g: int, k: nat)
    requires History(schedule, Some(next), taken) && Steady(schedule)
    requires Names(schedule, g) && InCell(next, taken, g, k)
    ensures TakenAs(taken, g, k) || SkippedAfter(next, taken, g, k)
  {
    if taken[k].now < g {
      var t := NamedIsAnswered(schedule, taken[k].now, g);
      NoOccurrenceIsPassedOver(schedule, Some(next), taken, k, t);
    }
  }

  /**
   * Between the first occurrence a job took and the pending one, every instant of its schedule was either taken,
   * exactly once, or skipped because it was already past; never both, and no future one is skipped.
   */
  lemma EveryOccurrenceIsTakenOrPast(a: Armed, g: int)
    requires Chained(a) && Steady(a.job.schedule) && a.taken != []
    requires Names(a.job.schedule, g) && a.taken[0].slot <= g < a.next.value
    ensures (exists k :: TakenAs(a.taken, g, k)) != (exists k :: SkippedAfter(a.next.value, a.taken, g, k))
    ensures forall k, l | TakenAs(a.taken, g, k) && TakenAs(a.taken, g, l) :: k == l
  {
    var schedule, next, taken := a.job.schedule, a.next.value, a.taken;
    var k := CellOf(schedule, next, taken, g, |taken|);
    InsideIsTakenOrPast(schedule, next, taken, g, k);
    forall l: nat | TakenAs(taken, g, l) || SkippedAfter(next, taken, g, l)
      ensures l == k
    {
      NextSlotIsLater(schedule, a.next, taken, l);
      CellsAreDisjoint(schedule, next, taken, g, k, l);
      CellsAreDisjoint(schedule, next, taken, g, l, k);
    }
  }

  /** For an interval those instants are the points of the grid of the epoch. */
  lemma EveryGridPointIsTakenOrPast(a: Armed, g: int)
    requires Chained(a) && a.job.schedule.Interval? && a.taken != []
    requires g % a.job.schedule.every == 0 && a.taken[0].slot <= g < a.next.value
    ensures (exists k :: TakenAs(a.taken, g, k)) != (exists k :: SkippedAfter(a.next.value, a.taken, g, k))
    ensures forall k, l | TakenAs(a.taken, g, k) && TakenAs(a.taken, g, l) :: k == l
  {
    EveryOccurrenceIsTakenOrPast(a, g);
  }

  // ---------------------------------------------------------- what a turn fires

  /** Job `i` got one new run, for `slot`, under a fresh token of its own, behind the current gate. */
  predicate FiredFor(r: Replica, r': Replica, i: nat, slot: int)
    requires i < |r.jobs| == |r'.jobs|
  {
    var token := r'.jobs[i].token;
    && token != 0 && token !in r.runs && token in r'.runs
    && r'.runs[token].job == i && r'.runs[token].slot == slot
    && r'.runs[token].phase == Queued && r'.runs[token].gate + 1 == |r.gates|
    && forall t <- r'.runs | t !in r.runs && r'.runs[t].job == i :: t == token
  }

  /** Job `i` got no new run, and says of itself what it said. */
  predicate NotFired(r: Replica, r': Replica, i: nat)
    requires i < |r.jobs| == |r'.jobs|
  {
    r'.jobs[i].token == r.jobs[i].token && forall t <- r'.runs | t !in r.runs :: r'.runs[t].job != i
  }

  /** An idle job whose occurrence has arrived. */
  predicate DueAndIdle(a: Armed, now: int)
  {
    a.next.Some? && a.next.value <= now && a.token == 0
  }

  lemma VisitLeaves(r: Replica, k: nat, now: int, i: nat)
    requires RunnerInv(r) && Positive(r) && k < |r.jobs| && i < |r.jobs| && (i != k || !DueAndIdle(r.jobs[i], now))
    ensures var r' := Visited(r, k, now).replica;
            |r'.jobs| == |r.jobs| && NotFired(r, r', i) && (i != k ==> r'.jobs[i] == r.jobs[i])
  {
    assert Chained(r.jobs[k]);
    NextRunIsAhead(r.jobs[k].job.schedule, now);
    assert r.counter + 1 !in r.runs;
  }

  lemma VisitFires(r: Replica, i: nat, now: int)
    requires RunnerInv(r) && Positive(r) && i < |r.jobs| && DueAndIdle(r.jobs[i], now) && !Visited(r, i, now).crashed
    ensures var r' := Visited(r, i, now).replica; |r'.jobs| == |r.jobs| && FiredFor(r, r', i, r.jobs[i].next.value)
  {
    assert r.counter + 1 !in r.runs;
  }

  lemma LeftAloneTwice(r: Replica, r1: Replica, r2: Replica, i: nat, now: int)
    requires Positive(r) && Positive(r1) && QueuedWell(r, r1, now) && QueuedWell(r1, r2, now) && i < |r.jobs|
    requires NotFired(r, r1, i) && NotFired(r1, r2, i)
    ensures NotFired(r, r2, i)
  {
  }

  lemma FiredAndLeftAlone(r: Replica, r1: Replica, r2: Replica, i: nat, slot: int, now: int)
    requires Positive(r) && Positive(r1) && QueuedWell(r, r1, now) && QueuedWell(r1, r2, now) && i < |r.jobs|
    requires FiredFor(r, r1, i, slot) && NotFired(r1, r2, i)
    ensures FiredFor(r, r2, i, slot)
  {
  }

  lemma LeftAloneAndFired(r: Replica, r1: Replica, r2: Replica, i: nat, slot: int, now: int)
    requires Positive(r) && Positive(r1) && QueuedWell(r, r1, now) && QueuedWell(r1, r2, now) && i < |r.jobs|
    requires NotFired(r, r1, i) && FiredFor(r1, r2, i, slot)
    ensures FiredFor(r, r2, i, slot)
  {
  }

  /** One undisturbed visit to job `k`, said of job `i`. */
  ghost predicate ServesOne(r: Replica, r1: Replica, k: nat, i: nat, now: int)
    requires i < |r.jobs| == |r1.jobs|
  {
    && (if i == k && DueAndIdle(r.jobs[i], now) then FiredFor(r, r1, i, r.jobs[i].next.value) else NotFired(r, r1, i))
    && (i != k ==> r1.jobs[i] == r.jobs[i])
  }

  /** One undisturbed visit to job `k`, as far as who is fired goes. */
  ghost predicate Serves(r: Replica, r1: Replica, k: nat, now: int)
  {
    && Positive(r) && Positive(r1) && k < |r.jobs| == |r1.jobs| && QueuedWell(r, r1, now)
    && forall i | 0 <= i < |r.jobs| :: ServesOne(r, r1, k, i, now)
  }

  lemma VisitServes(r: Replica, k: nat, now: int)
    requires RunnerInv(r) && Positive(r) && k < |r.jobs| && !Visited(r, k, now).crashed
    ensures RunnerInv(Visited(r, k, now).replica) && Serves(r, Visited(r, k, now).replica, k, now)
  {
    var r1 := Visited(r, k, now).replica;
    VisitKeeps(r, k, now);
    DeclaredIsPositive(r1);
    forall i | 0 <= i < |r.jobs|
      ensures ServesOne(r, r1, k, i, now)
    {
      if i == k && DueAndIdle(r.jobs[i], now) {
        VisitFires(r, i, now);
      } else {
        VisitLeaves(r, k, now, i);
      }
    }
  }

  /** The states a walk from job `k` on goes through. */
  ghost predicate Walks(states: seq<Replica>, k: nat, now: int)
  {
    states != [] && Positive(states[0]) && forall n | 0 <= n < |states| - 1 :: Serves(states[n], states[n + 1], k + n, now)
  }

  lemma {:induction false} StatesOfAWalk(r: Replica, k: nat, now: int) returns (states: seq<Replica>)
    requires RunnerInv(r) && Positive(r) && k <= |r.jobs| && !Walk(r, k, now).crashed
    ensures |states| == |r.jobs| - k + 1 && states[0] == r && states[|states| - 1] == Walk(r, k, now).replica
    ensures Walks(states, k, now)
    decreases |r.jobs| - k
  {
    states := [r];
    if k < |r.jobs| {
      VisitServes(r, k, now);
      var rest := StatesOfAWalk(Visited(r, k, now).replica, k + 1, now);
      states := OneBefore(r, rest, k, now);
    }
  }

  lemma OneBefore(r: Replica, rest: seq<Replica>, k: nat, now: int) returns (states: seq<Replica>)
    requires Walks(rest, k + 1, now) && Serves(r, rest[0], k, now)
    ensures states == [r] + rest && Walks(states, k, now)
  {
    states := [r] + rest;
    forall n | 0 <= n < |states| - 1
      ensures Serves(states[n], states[n + 1], k + n, now)
    {
      if n > 0 {
        assert Serves(rest[n - 1], rest[n], k + 1 + (n - 1), now);
      }
    }
  }

  lemma {:induction false} LeftOnTheWay(states: seq<Replica>, k: nat, now: int, i: nat, n: nat)
    requires Walks(states, k, now) && i < |states[0].jobs| && n < |states|
    requires i < k || k + n <= i || !DueAndIdle(states[0].jobs[i], now)
    ensures Positive(states[n]) && |states[n].jobs| == |states[0].jobs| && QueuedWell(states[0], states[n], now)
    ensures NotFired(states[0], states[n], i) && (k + n <= i ==> states[n].jobs[i] == states[0].jobs[i])
    decreases n
  {
    if n > 0 {
      LeftOnTheWay(states, k, now, i, n - 1);
      assert Serves(states[n - 1], states[n], k + (n - 1), now);
      assert ServesOne(states[n - 1], states[n], k + (n - 1), i, now);
      WidenQueued(states[0], states[n - 1], states[n], now);
      LeftAloneTwice(states[0], states[n - 1], states[n], i, now);
    }
  }

  lemma {:induction false} FiredOnTheWay(states: seq<Replica>, k: nat, now: int, i: nat, n: nat)
    requires Walks(states, k, now) && k <= i < |states[0].jobs| && i < k + n && n < |states|
    requires DueAndIdle(states[0].jobs[i], now)
    ensures Positive(states[n]) && |states[n].jobs| == |states[0].jobs| && QueuedWell(states[0], states[n], now)
    ensures FiredFor(states[0], states[n], i, states[0].jobs[i].next.value)
    decreases n
  {
    var slot := states[0].jobs[i].next.value;
    assert Serves(states[n - 1], states[n], k + (n - 1), now);
    if i == k + n - 1 {
      LeftOnTheWay(states, k, now, i, n - 1);
      assert ServesOne(states[n - 1], states[n], k + (n - 1), i, now);
      LeftAloneAndFired(states[0], states[n - 1], states[n], i, slot, now);
    } else {
      FiredOnTheWay(states, k, now, i, n - 1);
      assert ServesOne(states[n - 1], states[n], k + (n - 1), i, now);
      FiredAndLeftAlone(states[0], states[n - 1], states[n], i, slot, now);
    }
    WidenQueued(states[0], states[n - 1], states[n], now);
  }

  /**
   * A turn that goes on fires every due occurrence of every idle job, however late it came: a new run of that job,
   * for that very occurrence, behind the current gate. It gives no other job a run, and touches no run there was.
   */
  lemma TurnFiresWhatIsDue(r: Replica, now: int, i: nat)
    requires RunnerInv(r) && Positive(r) && i < |r.jobs|
    requires r.loops != 0 && r.running && Woken(r, now).running
    ensures var a, r' := r.jobs[i], Woken(r, now);
            && |r'.jobs| == |r.jobs|
            && (if a.next.Some? && a.next.value <= now && a.token == 0 then FiredFor(r, r', i, a.next.value)
                else NotFired(r, r', i))
            && (forall t <- r.runs :: t in r'.runs && r'.runs[t] == r.runs[t])
  {
    WalkKeeps(r, 0, now);
    var states := StatesOfAWalk(r, 0, now);
    if DueAndIdle(r.jobs[i], now) {
      FiredOnTheWay(states, 0, now, i, |r.jobs|);
    } else {
      LeftOnTheWay(states, 0, now, i, |r.jobs|);
    }
  }

  /** The schedule of a job still has an occurrence after `now`. */
  ghost predicate HasMore(a: Armed, now: int)
    requires a.job.schedule.Interval? ==> 0 < a.job.schedule.every
  {
    exists t: int :: Occurs(a.job.schedule, now, t)
  }

  /** A look goes wrong exactly when it needs an occurrence after `now` and there is none. */
  lemma LookBreaksIff(a: Armed, now: int)
    requires Declared(a.job.schedule)
    ensures TakeIfDue(a, now).Broken? <==> (a.next.None? || a.next.value <= now) && !HasMore(a, now)
  {
    var schedule := a.job.schedule;
    NextRunIsAhead(schedule, now);
    forall t | Occurs(schedule, now, t)
      ensures NextRun(schedule, now).Success?
    {
      NextRunIsLeast(schedule, now, t);
    }
  }

  /** The jobs from index `k` on whose schedules have what a turn at `now` needs of them. */
  ghost predicate NoneEnds(r: Replica, k: nat, now: int)
    requires Positive(r)
  {
    forall i | k <= i < |r.jobs| :: (r.jobs[i].next.None? || r.jobs[i].next.value <= now) ==> HasMore(r.jobs[i], now)
  }

  /** One visit goes on exactly when its own job has what it needs, and leaves the jobs after it as they were. */
  lemma VisitGoesOnIff(r: Replica, k: nat, now: int)
    requires RunnerInv(r) && Positive(r) && k < |r.jobs| && Positive(Visited(r, k, now).replica)
    ensures var turn := Visited(r, k, now);
            && (!turn.crashed <==> ((r.jobs[k].next.None? || r.jobs[k].next.value <= now) ==> HasMore(r.jobs[k], now)))
            && (NoneEnds(r, k + 1, now) <==> NoneEnds(turn.replica, k + 1, now))
  {
    assert Chained(r.jobs[k]);
    LookBreaksIff(r.jobs[k], now);
    assert forall i | k < i < |r.jobs| :: Visited(r, k, now).replica.jobs[i] == r.jobs[i];
  }

  lemma {:induction false} WalkGoesOnIff(r: Replica, k: nat, now: int)
    requires RunnerInv(r) && Positive(r) && k <= |r.jobs|
    ensures !Walk(r, k, now).crashed <==> NoneEnds(r, k, now)
    decreases |r.jobs| - k
  {
    if k < |r.jobs| {
      var turn := Visited(r, k, now);
      VisitKeeps(r, k, now);
      DeclaredIsPositive(turn.replica);
      VisitGoesOnIff(r, k, now);
      if !turn.crashed {
        WalkGoesOnIff(turn.replica, k + 1, now);
      }
    }
  }

  /** A turn of a runner that is up takes it down exactly when some job needs an occurrence its schedule has not got. */
  lemma TurnGoesOnIff(r: Replica, now: int)
    requires RunnerInv(r) && Positive(r) && r.loops != 0 && r.running
    ensures Woken(r, now).running <==> NoneEnds(r, 0, now)
  {
    WalkKeeps(r, 0, now);
    WalkGoesOnIff(r, 0, now);
  }

  // ------------------------------------------------- registering and starting

  /** A job is armed exactly when its name is new and its schedule has a first occurrence; the others stay as they are. */
  lemma RegisterArms(r: Replica, job: Scheduled, clock: Option<int>)
    requires Declared(job.schedule)
    ensures var after := Registered(r, job, clock);
            && (after == Failure(Duplicate) <==> exists a <- r.jobs :: a.job.name == job.name)
            && (after.Success? <==> (forall a <- r.jobs :: a.job.name != job.name)
                                    && (clock.Some? ==> exists t: int :: Occurs(job.schedule, clock.value, t)))
            && (after.Success? ==> ArmedAnew(r, after.value, job, clock))
  {
    if clock.Some? {
      NextRunIsAhead(job.schedule, clock.value);
      forall t | Occurs(job.schedule, clock.value, t)
        ensures NextRun(job.schedule, clock.value).Success? && NextRun(job.schedule, clock.value).value <= t
      {
        NextRunIsLeast(job.schedule, clock.value, t);
      }
    }
    assert (exists a <- r.jobs :: a.job.name == job.name)
        == (exists i | 0 <= i < |r.jobs| :: r.jobs[i].job.name == job.name);
  }

  /** One more job at the end, idle, at its least occurrence after the clock when there was a clock to read. */
  ghost predicate ArmedAnew(r: Replica, r': Replica, job: Scheduled, clock: Option<int>)
    requires job.schedule.Interval? ==> 0 < job.schedule.every
  {
    && |r'.jobs| == |r.jobs| + 1 && r'.jobs[..|r.jobs|] == r.jobs && r' == r.(jobs := r'.jobs)
    && var a := r'.jobs[|r.jobs|];
       && a.job == job && a.token == 0 && a.taken == []
       && (a.next.Some? <==> clock.Some?)
       && (clock.Some? ==> Occurs(job.schedule, clock.value, a.next.value)
                           && forall t | Occurs(job.schedule, clock.value, t) :: a.next.value <= t)
  }

  /** Starting a runner that is down opens a gate as wide as was asked, which later runs queue behind, and adds a loop. */
  lemma StartOpensAGate(r: Replica, maxConcurrent: nat)
    ensures r.running ==> Started(r, maxConcurrent) == r
    ensures var r' := Started(r, maxConcurrent);
            !r.running ==>
              && r'.running && r'.loops == r.loops + 1 && r'.jobs == r.jobs && r'.runs == r.runs
              && |r'.gates| == |r.gates| + 1 && r'.gates[..|r.gates|] == r.gates
              && r'.gates[|r.gates|].limit == maxConcurrent && r'.gates[|r.gates|].held == {}
  {
  }

  /** Stopping ends no run and frees no gate; the loop's next turn fires nothing, takes nothing, and is its last. */
  lemma StopLeavesRunsToFinish(r: Replica, now: int)
    requires r.gates != [] && Positive(r) && r.loops != 0
    ensures !Stopped(r).running && Stopped(r).loops == r.loops
    ensures var last := Woken(Stopped(r), now);
            && last.jobs == r.jobs && last.runs == r.runs && last.gates == r.gates
            && last.loops == r.loops - 1 && !last.running
  {
  }

  /** The runs of one gate that were let in and have not left. */
  ghost function Inside(r: Replica, g: nat): set<nat>
  {
    set t | t in r.runs && r.runs[t].gate == g && r.runs[t].phase in {Admitted, Running}
  }

  /** A queued run is let in exactly while its gate has room. */
  lemma EntersWhileThereIsRoom(r: Replica, token: nat)
    requires RunnerInv(r) && token in r.runs
    ensures var run := r.runs[token];
            CanEnter(r, token) <==> run.phase == Queued && |Inside(r, run.gate)| < r.gates[run.gate].limit
  {
    assert Inside(r, r.runs[token].gate) == r.gates[r.runs[token].gate].held;
  }
}
