/** The runner in time, with exact timers: what its loops sleep for, and when an armed occurrence is taken. */
module CronTimed {
  import opened Results
  import opened CronSchedule
  import opened CronSlotLock
  import opened CronState
  import opened CronInvariants

  const SLEEP_AT_LEAST := 50

  function Min(a: int, b: int): int
  {
    if a < b then a else b
  }

  /**
   * A sleep of `d` from `now` that no occurrence the jobs stand at pays for: it is within its bounds, wakes by every
   * occurrence that is more than the shortest sleep away, and is never cut short without one to wake for.
   */
  ghost predicate Sleeps(jobs: seq<Armed>, atMost: int, now: int, d: int)
  {
    && Min(atMost, SLEEP_AT_LEAST) <= d <= atMost
    && (forall a <- jobs | a.next.Some? :: now + d <= Max(a.next.value, now + SLEEP_AT_LEAST))
    && (d < atMost ==> exists a <- jobs :: a.next.Some? && now + d == Max(a.next.value, now + SLEEP_AT_LEAST))
  }

  /** Whether the turn a loop takes at `now` ends in a sleep: the runner was not stopped, and no schedule crashed it. */
  ghost predicate GoesOn(r: Replica, now: int)
    requires r.gates != [] && Positive(r)
  {
    r.loops != 0 && r.running && !Walk(r, 0, now).crashed
  }

  // ------------------------------------------------------------- one turn

  /** What a look leaves of a job, but for its token. */
  ghost predicate Looked(a: Armed, b: Armed, now: int)
    requires a.job.schedule.Interval? ==> 0 < a.job.schedule.every
  {
    var look := TakeIfDue(a, now);
    look.Look? && b.job == a.job && b.next == look.armed.next && b.taken == look.armed.taken
  }

  /** Nothing of a job's occurrences moved, but that it may have been asked for its first. */
  ghost predicate Kept(a: Armed, b: Armed)
  {
    b.job == a.job && b.taken == a.taken && (a.next.Some? ==> b.next == a.next)
  }

  /** What a whole turn does to one job: what was due is taken and moved past the clock, anything else stays put. */
  ghost predicate Met(a: Armed, b: Armed, now: int)
  {
    && b.job == a.job && b.next.Some? && now < b.next.value
    && (if a.next.Some? && a.next.value <= now then b.taken == a.taken + [Taken(a.next.value, now)] else Kept(a, b))
  }

  lemma LookMeets(a: Armed, b: Armed, now: int)
    requires Chained(a) && Looked(a, b, now)
    ensures Met(a, b, now)
  {
    var schedule := a.job.schedule;
    NextRunIsAhead(schedule, now);
    if schedule.Interval? {
      AfterSlotIsLeast(schedule.every, NextRunAt(a, now).value, now, 1);
    }
  }

  /** A visit looks at its own job and leaves the occurrences of every other one alone. */
  lemma VisitLooks(r: Replica, i: nat, now: int)
    requires i < |r.jobs| && r.gates != [] && Positive(r)
    ensures var turn := Visited(r, i, now);
            && |turn.replica.jobs| == |r.jobs| && turn.replica.running == r.running && turn.replica.loops == r.loops
            && (forall j | 0 <= j < |r.jobs| && j != i :: turn.replica.jobs[j] == r.jobs[j])
            && (if turn.crashed then Kept(r.jobs[i], turn.replica.jobs[i]) else Looked(r.jobs[i], turn.replica.jobs[i], now))
  {
  }

  lemma VisitKeepsPositive(r: Replica, i: nat, now: int)
    requires i < |r.jobs| && r.gates != [] && Positive(r)
    ensures Positive(Visited(r, i, now).replica)
  {
    var next := Visited(r, i, now).replica;
    VisitLooks(r, i, now);
    forall a <- next.jobs
      ensures a.job.schedule.Interval? ==> 0 < a.job.schedule.every
    {
      var j :| 0 <= j < |next.jobs| && next.jobs[j] == a;
      assert r.jobs[j] in r.jobs && a.job == r.jobs[j].job;
    }
  }

  lemma {:induction false} WalkLooks(r: Replica, i: nat, now: int)
    requires i <= |r.jobs| && r.gates != [] && Positive(r)
    ensures var turn := Walk(r, i, now);
            && |turn.replica.jobs| == |r.jobs| && turn.replica.running == r.running && turn.replica.loops == r.loops
            && (forall j | 0 <= j < i :: turn.replica.jobs[j] == r.jobs[j])
            && (forall j | i <= j < |r.jobs| ::
                  Looked(r.jobs[j], turn.replica.jobs[j], now)
                  || (turn.crashed && Kept(r.jobs[j], turn.replica.jobs[j])))
    decreases |r.jobs| - i
  {
    if i < |r.jobs| {
      VisitLooks(r, i, now);
      VisitKeepsPositive(r, i, now);
      if !Visited(r, i, now).crashed {
        WalkLooks(Visited(r, i, now).replica, i + 1, now);
      }
    }
  }

  /**
   * A turn that goes on takes every armed occurrence that is due, at its own instant, and no other; each job then
   * stands past the clock. One that crashes takes some of them and loses none.
   */
  lemma TurnTakesWhatIsDue(r: Replica, now: int, i: nat)
    requires RunnerInv(r) && Positive(r) && i < |r.jobs|
    ensures |Woken(r, now).jobs| == |r.jobs|
    ensures GoesOn(r, now) ==> Met(r.jobs[i], Woken(r, now).jobs[i], now)
    ensures Met(r.jobs[i], Woken(r, now).jobs[i], now) || Kept(r.jobs[i], Woken(r, now).jobs[i])
  {
    WalkLooks(r, 0, now);
    var b := Walk(r, 0, now).replica.jobs[i];
    assert Chained(r.jobs[i]);
    if Looked(r.jobs[i], b, now) {
      LookMeets(r.jobs[i], b, now);
    }
  }

  /** After a turn that goes on every job stands at an occurrence, so that asking again changes nothing. */
  lemma TurnArmsEveryJob(r: Replica, now: int)
    requires r.gates != [] && Positive(r) && GoesOn(r, now)
    ensures forall a <- Woken(r, now).jobs :: a.next.Some?
  {
    WalkLooks(r, 0, now);
    forall a <- Woken(r, now).jobs
      ensures a.next.Some?
    {
      var j :| 0 <= j < |r.jobs| && Woken(r, now).jobs[j] == a;
      assert Looked(r.jobs[j], a, now);
    }
  }

  ghost predicate AllOnIntervals(jobs: seq<Armed>)
  {
    forall i | 0 <= i < |jobs| :: jobs[i].job.schedule.Interval?
  }

  /** A walk over jobs that all run on intervals never crashes. */
  lemma {:induction false} IntervalsNeverCrash(r: Replica, i: nat, now: int)
    requires i <= |r.jobs| && r.gates != [] && Positive(r)
    requires AllOnIntervals(r.jobs)
    ensures !Walk(r, i, now).crashed
    decreases |r.jobs| - i
  {
    if i < |r.jobs| {
      VisitLooks(r, i, now);
      VisitKeepsPositive(r, i, now);
      IntervalsNeverCrash(Visited(r, i, now).replica, i + 1, now);
    }
  }

  // -------------------------------------------------------------- the machine

  /** One loop asleep: its tick, when the sleep began and ends, and how many jobs were armed when it began. */
  datatype Sleeper = Sleeper(tick: nat, since: int, until: int, known: nat)

  /** One process in time: its clock, its runner, its live loops, and the sleeps that ended in a turn that went on. */
  datatype Timed = Timed(now: int, replica: Replica, loops: map<nat, Sleeper>, started: nat, turns: seq<Sleeper>)

  datatype TimedStep =
    | Pass(elapsed: nat)
    | Arm(job: Scheduled, clockIsThere: bool)
    | Start(tick: nat, maxConcurrent: nat)
    | Stop
    | WakeUp(loop: nat, sleep: int)
    | Admit(token: nat)
    | Begin(token: nat)
    | Leave(token: nat)
    | End(token: nat)

  /** Timers are exact: time never passes the end of a sleep, and the loop takes its turn there. */
  ghost predicate Enabled(s: Timed, step: TimedStep)
  {
    match step
    case Pass(elapsed) => forall l <- s.loops :: s.now + elapsed <= s.loops[l].until
    case Arm(job, _) => Declared(job.schedule)
    case Start(_, _) => true
    case Stop => true
    case WakeUp(l, sleep) =>
      && l in s.loops && s.loops[l].until == s.now && s.replica.gates != [] && Positive(s.replica)
      && (GoesOn(s.replica, s.now) ==> Sleeps(Woken(s.replica, s.now).jobs, s.loops[l].tick, s.now, sleep))
    case Admit(token) => CanEnter(s.replica, token)
    case Begin(token) => InPhase(s.replica, token, Admitted)
    case Leave(token) => InPhase(s.replica, token, Admitted) || InPhase(s.replica, token, Running)
    case End(token) => InPhase(s.replica, token, Released)
  }

  ghost function Apply(s: Timed, step: TimedStep): Timed
    requires Enabled(s, step)
  {
    match step
    case Pass(elapsed) => s.(now := s.now + elapsed)
    case Arm(job, clockIsThere) =>
      (match Registered(s.replica, job, if clockIsThere then Some(s.now) else None)
       case Success(r) => s.(replica := r)
       case Failure(_) => s)
    case Start(tick, maxConcurrent) =>
      if s.replica.running then s
      else s.(replica := Started(s.replica, maxConcurrent),
              loops := s.loops[s.started := Sleeper(tick, s.now, s.now, 0)],
              started := s.started + 1)
    case Stop => s.(replica := Stopped(s.replica))
    case WakeUp(l, sleep) =>
      var r := Woken(s.replica, s.now);
      if GoesOn(s.replica, s.now) then
        s.(replica := r,
           loops := s.loops[l := Sleeper(s.loops[l].tick, s.now, s.now + sleep, |r.jobs|)],
           turns := s.turns + [s.loops[l]])
      else s.(replica := r, loops := s.loops - {l})
    case Admit(token) => s.(replica := Entered(s.replica, token))
    case Begin(token) => s.(replica := Begun(s.replica, token))
    case Leave(token) => s.(replica := Left(s.replica, token))
    case End(token) => s.(replica := Ended(s.replica, token))
  }

  ghost predicate Valid(s: Timed, run: seq<TimedStep>)
    decreases |run|
  {
    run == [] || (Enabled(s, run[0]) && Valid(Apply(s, run[0]), run[1..]))
  }

  ghost function Final(s: Timed, run: seq<TimedStep>): Timed
    requires Valid(s, run)
    decreases |run|
  {
    if run == [] then s else Final(Apply(s, run[0]), run[1..])
  }

  /** A process as it starts: no job, no loop. */
  function Idle(now: int): Timed
  {
    Timed(now, FRESH, map[], 0, [])
  }

  ghost predicate Reachable(s: Timed)
  {
    exists now: int, run: seq<TimedStep> :: Valid(Idle(now), run) && Final(Idle(now), run) == s
  }

  // ---------------------------------------------------------------- invariant

  /** A sleep is within its bounds, and wakes by what each job armed when it began now stands at. */
  ghost predicate SleeperOk(now: int, jobs: seq<Armed>, z: Sleeper)
  {
    && z.since <= now <= z.until <= z.since + z.tick
    && (z.since + Min(z.tick, SLEEP_AT_LEAST) <= z.until || (z.until == z.since && z.known == 0))
    && z.known <= |jobs|
    && (forall i | 0 <= i < z.known :: WakesFor(jobs[i], z))
  }

  predicate WakesFor(a: Armed, z: Sleeper)
  {
    a.next.Some? && z.since < a.next.value && z.until <= Max(a.next.value, z.since + SLEEP_AT_LEAST)
  }

  ghost predicate LoopsOk(s: Timed)
  {
    && |s.loops| == s.replica.loops
    && (s.replica.running ==> s.loops != map[])
    && (forall l <- s.loops :: l < s.started && SleeperOk(s.now, s.replica.jobs, s.loops[l]))
  }

  ghost predicate TimedInv(s: Timed)
  {
    RunnerInv(s.replica) && LoopsOk(s)
  }

  /** What any step but a turn may do to the jobs: more are armed, and tokens change. */
  ghost predicate Quiet(jobs: seq<Armed>, jobs': seq<Armed>)
  {
    |jobs| <= |jobs'| && forall i | 0 <= i < |jobs| :: jobs'[i].next == jobs[i].next && Kept(jobs[i], jobs'[i])
  }

  lemma QuietKeepsSleepers(now: int, jobs: seq<Armed>, jobs': seq<Armed>, z: Sleeper)
    requires SleeperOk(now, jobs, z) && Quiet(jobs, jobs')
    ensures SleeperOk(now, jobs', z)
  {
    forall i | 0 <= i < z.known
      ensures WakesFor(jobs'[i], z)
    {
      assert WakesFor(jobs[i], z);
    }
  }

  /** A turn of one loop only moves occurrences further away, so every other sleeper still wakes for them. */
  lemma TurnKeepsSleepers(r: Replica, now: int, z: Sleeper)
    requires RunnerInv(r) && Positive(r) && SleeperOk(now, r.jobs, z)
    ensures SleeperOk(now, Woken(r, now).jobs, z)
  {
    forall j | 0 <= j < |r.jobs|
      ensures |Woken(r, now).jobs| == |r.jobs|
      ensures Met(r.jobs[j], Woken(r, now).jobs[j], now) || Kept(r.jobs[j], Woken(r, now).jobs[j])
    {
      TurnTakesWhatIsDue(r, now, j);
    }
    WalkLooks(r, 0, now);
    forall i | 0 <= i < z.known
      ensures WakesFor(Woken(r, now).jobs[i], z)
    {
      assert WakesFor(r.jobs[i], z);
    }
  }

  lemma FallsAsleepWell(r: Replica, now: int, tick: nat, sleep: int)
    requires RunnerInv(r) && Positive(r) && GoesOn(r, now)
    requires Sleeps(Woken(r, now).jobs, tick, now, sleep)
    ensures SleeperOk(now, Woken(r, now).jobs, Sleeper(tick, now, now + sleep, |Woken(r, now).jobs|))
  {
    var jobs := Woken(r, now).jobs;
    WalkLooks(r, 0, now);
    forall i | 0 <= i < |jobs|
      ensures WakesFor(jobs[i], Sleeper(tick, now, now + sleep, |jobs|))
    {
      TurnTakesWhatIsDue(r, now, i);
      assert jobs[i] in jobs;
    }
  }

  lemma WokenKeepsTheRunner(r: Replica, now: int)
    requires RunnerInv(r) && Positive(r)
    ensures RunnerInv(Woken(r, now))
    ensures r.loops != 0 ==> Woken(r, now).loops == if GoesOn(r, now) then r.loops else r.loops - 1
    ensures r.loops != 0 ==> Woken(r, now).running == GoesOn(r, now)
  {
    WalkKeeps(r, 0, now);
  }

  lemma WakeUpKeeps(s: Timed, l: nat, sleep: int)
    requires TimedInv(s) && Enabled(s, WakeUp(l, sleep))
    ensures TimedInv(Apply(s, WakeUp(l, sleep)))
  {
    var s' := Apply(s, WakeUp(l, sleep));
    WokenKeepsTheRunner(s.replica, s.now);
    forall k <- s.loops
      ensures SleeperOk(s.now, s'.replica.jobs, s.loops[k])
    {
      TurnKeepsSleepers(s.replica, s.now, s.loops[k]);
    }
    if GoesOn(s.replica, s.now) {
      FallsAsleepWell(s.replica, s.now, s.loops[l].tick, sleep);
      assert s'.loops.Keys == s.loops.Keys;
      assert |s'.loops| == |s'.loops.Keys| == |s.loops.Keys|;
    } else {
      assert s'.loops.Keys == s.loops.Keys - {l};
      assert |s'.loops| == |s'.loops.Keys|;
      assert |s.loops| == |s.loops.Keys|;
    }
  }

  /** Steps between turns leave the occurrences of every armed job where they are. */
  lemma OtherStepsAreQuiet(s: Timed, step: TimedStep)
    requires TimedInv(s) && Enabled(s, step) && !step.WakeUp?
    ensures RunnerInv(Apply(s, step).replica)
    ensures Quiet(s.replica.jobs, Apply(s, step).replica.jobs)
  {
    match step
    case Arm(job, clockIsThere) =>
      RegisterKeeps(s.replica, job, if clockIsThere then Some(s.now) else None);
    case Start(_, maxConcurrent) => StartKeeps(s.replica, maxConcurrent);
    case Stop => StartKeeps(s.replica, 0);
    case Admit(token) => EnterKeeps(s.replica, token);
    case Begin(token) => BeginKeeps(s.replica, token);
    case Leave(token) => LeaveKeeps(s.replica, token);
    case End(token) => EndKeeps(s.replica, token);
    case Pass(_) =>
  }

  lemma OtherStepsKeepLoops(s: Timed, step: TimedStep)
    requires TimedInv(s) && Enabled(s, step) && !step.WakeUp?
    ensures LoopsOk(Apply(s, step))
  {
    var s' := Apply(s, step);
    OtherStepsAreQuiet(s, step);
    forall l <- s.loops
      ensures SleeperOk(s'.now, s'.replica.jobs, s.loops[l])
    {
      QuietKeepsSleepers(s.now, s.replica.jobs, s'.replica.jobs, s.loops[l]);
    }
    if step.Start? && !s.replica.running {
      assert s.started !in s.loops;
      assert s'.loops.Keys == s.loops.Keys + {s.started};
      assert |s'.loops| == |s'.loops.Keys|;
      assert |s.loops| == |s.loops.Keys|;
    }
  }

  /** Every step keeps the runner's invariant, and every sleep in bounds and in time for what was armed before it. */
  lemma StepKeeps(s: Timed, step: TimedStep)
    requires TimedInv(s) && Enabled(s, step)
    ensures TimedInv(Apply(s, step))
  {
    if step.WakeUp? {
      WakeUpKeeps(s, step.loop, step.sleep);
    } else {
      OtherStepsAreQuiet(s, step);
      OtherStepsKeepLoops(s, step);
    }
  }

  lemma {:induction false} RunKeeps(s: Timed, run: seq<TimedStep>)
    requires TimedInv(s) && Valid(s, run)
    ensures TimedInv(Final(s, run))
    decreases |run|
  {
    if run != [] {
      StepKeeps(s, run[0]);
      RunKeeps(Apply(s, run[0]), run[1..]);
    }
  }

  lemma ReachableIsOk(s: Timed)
    requires Reachable(s)
    ensures TimedInv(s)
  {
    var now: int, run: seq<TimedStep> :| Valid(Idle(now), run) && Final(Idle(now), run) == s;
    RunKeeps(Idle(now), run);
  }

  // ----------------------------------------------------------------- theorems

  /**
   * At every moment of every run, a running runner has a loop, and each loop wakes within its tick, and by what any
   * job armed before its sleep stands at, or by the shortest sleep if that is later.
   */
  lemma SleepMeetsKnown(s: Timed, l: nat, i: nat)
    requires Reachable(s)
    ensures s.replica.running ==> s.loops != map[]
    ensures l in s.loops ==> s.now <= s.loops[l].until <= s.loops[l].since + s.loops[l].tick
    ensures l in s.loops && i < s.loops[l].known ==> i < |s.replica.jobs| && WakesFor(s.replica.jobs[i], s.loops[l])
  {
    ReachableIsOk(s);
  }

  /** The history of job `i` only grows, and so does the record of turns. */
  lemma StepGrows(s: Timed, step: TimedStep, i: nat)
    requires TimedInv(s) && Enabled(s, step) && i < |s.replica.jobs|
    ensures var s' := Apply(s, step);
            && i < |s'.replica.jobs|
            && s.replica.jobs[i].taken <= s'.replica.jobs[i].taken
            && s.turns <= s'.turns
  {
    if step.WakeUp? {
      TurnTakesWhatIsDue(s.replica, s.now, i);
    } else {
      OtherStepsAreQuiet(s, step);
    }
  }

  lemma {:induction false} RunGrows(s: Timed, run: seq<TimedStep>, i: nat)
    requires TimedInv(s) && Valid(s, run) && i < |s.replica.jobs|
    ensures var e := Final(s, run);
            && i < |e.replica.jobs|
            && s.replica.jobs[i].taken <= e.replica.jobs[i].taken
            && s.turns <= e.turns
    decreases |run|
  {
    if run != [] {
      StepGrows(s, run[0], i);
      StepKeeps(s, run[0]);
      RunGrows(Apply(s, run[0]), run[1..], i);
    }
  }

  /** Job `i` stands at `slot`, with a history of length `n`; or `slot` is what it took next, once it was due. */
  predicate PendingOrTaken(a: Armed, slot: int, n: nat)
  {
    if |a.taken| <= n then |a.taken| == n && a.next == Some(slot)
    else a.taken[n].slot == slot && slot <= a.taken[n].now
  }

  /**
   * An armed occurrence is never lost: through any run, with stops, crashes, restarts and registrations, it stays
   * pending until some turn at or after it takes it, and it is then the very next one the job took.
   */
  lemma ArmedOccurrenceIsNeverLost(s: Timed, run: seq<TimedStep>, i: nat, slot: int)
    requires Reachable(s) && Valid(s, run) && i < |s.replica.jobs| && s.replica.jobs[i].next == Some(slot)
    ensures i < |Final(s, run).replica.jobs|
    ensures PendingOrTaken(Final(s, run).replica.jobs[i], slot, |s.replica.jobs[i].taken|)
  {
    ReachableIsOk(s);
    ArmedIsPendingOrTaken(s, run, i, slot);
  }

  lemma {:induction false} ArmedIsPendingOrTaken(s: Timed, run: seq<TimedStep>, i: nat, slot: int)
    requires TimedInv(s) && Valid(s, run) && i < |s.replica.jobs| && s.replica.jobs[i].next == Some(slot)
    ensures i < |Final(s, run).replica.jobs|
    ensures PendingOrTaken(Final(s, run).replica.jobs[i], slot, |s.replica.jobs[i].taken|)
    decreases |run|
  {
    if run != [] {
      var s' := Apply(s, run[0]);
      StepKeeps(s, run[0]);
      if run[0].WakeUp? {
        TurnTakesWhatIsDue(s.replica, s.now, i);
      } else {
        OtherStepsAreQuiet(s, run[0]);
      }
      if s'.replica.jobs[i].next == Some(slot) && s'.replica.jobs[i].taken == s.replica.jobs[i].taken {
        ArmedIsPendingOrTaken(s', run[1..], i, slot);
      } else {
        RunGrows(s', run[1..], i);
      }
    }
  }

  /** The runner was up all along: nobody stopped it, and no turn crashed. */
  ghost predicate UpThroughout(s: Timed, run: seq<TimedStep>)
    requires Valid(s, run)
    decreases |run|
  {
    s.replica.running && (run == [] || UpThroughout(Apply(s, run[0]), run[1..]))
  }

  /** When an occurrence is taken at the latest, by a loop asleep as `z`: job `i` was armed before that sleep or during it. */
  function Latest(z: Sleeper, i: nat, slot: int): int
  {
    if i < z.known then slot + SLEEP_AT_LEAST - 1 else Max(z.since + z.tick, slot + SLEEP_AT_LEAST - 1)
  }

  /** The turn that ended sleep `z` came in time for occurrence `slot` of job `i`. */
  predicate InTime(z: Sleeper, i: nat, slot: int)
  {
    && slot <= z.until <= z.since + z.tick
    && (i < z.known ==> z.until < slot + SLEEP_AT_LEAST && z.until <= Max(slot, z.since + SLEEP_AT_LEAST))
  }

  /** What one step makes of an occurrence that is pending, while the runner stays up. */
  lemma StepMeetsIt(s: Timed, step: TimedStep, l: nat, i: nat, slot: int)
    requires TimedInv(s) && Enabled(s, step) && l in s.loops
    requires s.replica.running && Apply(s, step).replica.running
    requires i < |s.replica.jobs| && s.replica.jobs[i].next == Some(slot)
    ensures var s' := Apply(s, step); var a := s.replica.jobs[i];
            && l in s'.loops && Latest(s'.loops[l], i, slot) <= Latest(s.loops[l], i, slot)
            && i < |s'.replica.jobs|
            && (if step.WakeUp? && slot <= s.now
                then s'.replica.jobs[i].taken == a.taken + [Taken(slot, s.now)]
                     && s'.turns == s.turns + [s.loops[step.loop]] && s.loops[step.loop].until == s.now
                     && InTime(s.loops[step.loop], i, slot) && s.now <= Latest(s.loops[l], i, slot)
                else s'.replica.jobs[i].taken == a.taken && s'.replica.jobs[i].next == Some(slot)
                     && (s'.turns == s.turns || (s'.turns == s.turns + [s.loops[step.loop]] && s.loops[step.loop].until < slot)))
  {
    assert SleeperOk(s.now, s.replica.jobs, s.loops[l]);
    if step.WakeUp? {
      assert SleeperOk(s.now, s.replica.jobs, s.loops[step.loop]);
      WokenKeepsTheRunner(s.replica, s.now);
      assert |s.loops| == |s.loops.Keys|;
      TurnTakesWhatIsDue(s.replica, s.now, i);
      if i < s.loops[l].known { assert WakesFor(s.replica.jobs[i], s.loops[l]); }
      if i < s.loops[step.loop].known { assert WakesFor(s.replica.jobs[i], s.loops[step.loop]); }
    } else {
      OtherStepsAreQuiet(s, step);
    }
  }

  /** An occurrence pending at the start of a run in which the runner stays up, followed step by step to its turn. */
  lemma {:induction false} MetAlongTheRun(s: Timed, run: seq<TimedStep>, l: nat, i: nat, slot: int) returns (n: nat)
    requires TimedInv(s) && Valid(s, run) && UpThroughout(s, run) && l in s.loops
    requires i < |s.replica.jobs| && s.replica.jobs[i].next == Some(slot)
    ensures var e := Final(s, run);
            && i < |e.replica.jobs|
            && |s.turns| <= n <= |e.turns|
            && (forall h | |s.turns| <= h < n :: e.turns[h].until < slot)
    ensures var e := Final(s, run); var before, after := s.replica.jobs[i].taken, e.replica.jobs[i].taken;
            if n == |e.turns| then
              after == before && e.replica.jobs[i].next == Some(slot) && e.now <= Latest(s.loops[l], i, slot)
            else
              && |before| < |after| && after[|before|] == Taken(slot, e.turns[n].until)
              && InTime(e.turns[n], i, slot) && e.turns[n].until <= Latest(s.loops[l], i, slot)
    decreases |run|
  {
    n := |s.turns|;
    if run == [] {
      assert SleeperOk(s.now, s.replica.jobs, s.loops[l]);
      if i < s.loops[l].known { assert WakesFor(s.replica.jobs[i], s.loops[l]); }
    } else {
      var s' := Apply(s, run[0]);
      StepMeetsIt(s, run[0], l, i, slot);
      StepKeeps(s, run[0]);
      RunGrows(s', run[1..], i);
      if !(run[0].WakeUp? && slot <= s.now) {
        n := MetAlongTheRun(s', run[1..], l, i, slot);
      }
    }
  }

  /**
   * With exact timers, over any run in which the runner stays up: an armed occurrence is taken by the first turn of
   * any loop at or after it, which is turn `n` of the record. When that loop went to sleep with the job armed, the turn
   * comes less than the shortest sleep late, and by the later of the occurrence and that long after its last turn;
   * when the job was armed during the sleep, within one tick of its last turn. Before that turn the occurrence is
   * pending, and the clock has not passed what each live loop allows.
   */
  lemma KnownSlotIsMetInTime(s: Timed, run: seq<TimedStep>, l: nat, i: nat, slot: int) returns (n: nat)
    requires Reachable(s) && Valid(s, run) && UpThroughout(s, run) && l in s.loops
    requires i < |s.replica.jobs| && s.replica.jobs[i].next == Some(slot)
    ensures var e := Final(s, run);
            && i < |e.replica.jobs|
            && |s.turns| <= n <= |e.turns|
            && (forall h | |s.turns| <= h < n :: e.turns[h].until < slot)
    ensures var e := Final(s, run); var before, after := s.replica.jobs[i].taken, e.replica.jobs[i].taken;
            if n == |e.turns| then
              after == before && e.replica.jobs[i].next == Some(slot) && e.now <= Latest(s.loops[l], i, slot)
            else
              && |before| < |after| && after[|before|] == Taken(slot, e.turns[n].until)
              && InTime(e.turns[n], i, slot) && e.turns[n].until <= Latest(s.loops[l], i, slot)
  {
    ReachableIsOk(s);
    n := MetAlongTheRun(s, run, l, i, slot);
  }

  lemma StepStaysUp(s: Timed, step: TimedStep)
    requires TimedInv(s) && Enabled(s, step) && s.replica.running && AllOnIntervals(s.replica.jobs)
    requires !step.Stop? && (step.Arm? ==> step.job.schedule.Interval?)
    ensures Apply(s, step).replica.running && AllOnIntervals(Apply(s, step).replica.jobs)
  {
    if step.WakeUp? {
      IntervalsNeverCrash(s.replica, 0, s.now);
      WokenKeepsTheRunner(s.replica, s.now);
      assert |s.loops| == |s.loops.Keys|;
      WalkLooks(s.replica, 0, s.now);
    } else {
      OtherStepsAreQuiet(s, step);
    }
  }

  /** A runner whose jobs all run on intervals stays up for as long as nobody stops it. */
  lemma {:induction false} IntervalsStayUp(s: Timed, run: seq<TimedStep>)
    requires TimedInv(s) && Valid(s, run) && s.replica.running && AllOnIntervals(s.replica.jobs)
    requires forall step <- run :: !step.Stop? && (step.Arm? ==> step.job.schedule.Interval?)
    ensures UpThroughout(s, run)
    decreases |run|
  {
    if run != [] {
      assert run[0] in run;
      StepKeeps(s, run[0]);
      StepStaysUp(s, run[0]);
      IntervalsStayUp(Apply(s, run[0]), run[1..]);
    }
  }

  // ----------------------------------------------------- how often a loop turns

  /** How many turns loop `l` takes in a run. */
  function TurnsOf(run: seq<TimedStep>, l: nat): nat
  {
    if run == [] then 0
    else (if run[0].WakeUp? && run[0].loop == l then 1 else 0) + TurnsOf(run[1..], l)
  }

  lemma {:induction false} AnEndedLoopStaysEnded(s: Timed, run: seq<TimedStep>, l: nat)
    requires Valid(s, run) && l !in s.loops && l < s.started
    ensures l !in Final(s, run).loops
    decreases |run|
  {
    if run != [] {
      AnEndedLoopStaysEnded(Apply(s, run[0]), run[1..], l);
    }
  }

  /** Sleep `e` began `n` turns after sleep `z` ended, each of them a shortest sleep at least and a tick at most apart. */
  predicate Apart(z: Sleeper, e: Sleeper, n: nat)
  {
    && e.tick == z.tick
    && (if n == 0 then e == z
        else z.until + (n - 1) * Min(z.tick, SLEEP_AT_LEAST) <= e.since <= z.until + (n - 1) * z.tick)
  }

  lemma OneMoreTurn(z: Sleeper, z': Sleeper, e: Sleeper, n: nat)
    requires z'.tick == z.tick && z'.since == z.until && Apart(z', e, n)
    requires z'.since + Min(z.tick, SLEEP_AT_LEAST) <= z'.until <= z'.since + z.tick
    ensures Apart(z, e, n + 1)
  {
    if n != 0 {
      var least := Min(z.tick, SLEEP_AT_LEAST);
      assert n * least == (n - 1) * least + least;
      assert n * z.tick == (n - 1) * z.tick + z.tick;
    }
  }

  /** A loop that lives on through a step either sleeps on, or ends one sleep and begins the next. */
  lemma StepTurnsALoop(s: Timed, step: TimedStep, l: nat)
    requires TimedInv(s) && Enabled(s, step) && l in s.loops && l in Apply(s, step).loops
    ensures var z, z' := s.loops[l], Apply(s, step).loops[l];
            if step.WakeUp? && step.loop == l then
              z'.tick == z.tick && z'.since == z.until
              && z'.since + Min(z.tick, SLEEP_AT_LEAST) <= z'.until <= z'.since + z.tick
            else z' == z
  {
  }

  lemma {:induction false} TurnsAlongTheRun(s: Timed, run: seq<TimedStep>, l: nat)
    requires TimedInv(s) && Valid(s, run) && l in s.loops && l in Final(s, run).loops
    ensures Apart(s.loops[l], Final(s, run).loops[l], TurnsOf(run, l))
    decreases |run|
  {
    if run != [] {
      var s' := Apply(s, run[0]);
      StepKeeps(s, run[0]);
      if l !in s'.loops {
        AnEndedLoopStaysEnded(s', run[1..], l);
      } else {
        TurnsAlongTheRun(s', run[1..], l);
        StepTurnsALoop(s, run[0], l);
        if run[0].WakeUp? && run[0].loop == l {
          OneMoreTurn(s.loops[l], s'.loops[l], Final(s, run).loops[l], TurnsOf(run[1..], l));
        }
      }
    }
  }

  /**
   * However many occurrences are due, the turns of a loop are spaced out: n turns take n - 1 times the shortest sleep
   * at least and n - 1 ticks at most, so no stretch of time holds more of them than that.
   */
  lemma TurnsAreSpacedOut(s: Timed, run: seq<TimedStep>, l: nat)
    requires Reachable(s) && Valid(s, run) && l in s.loops && l in Final(s, run).loops
    ensures Apart(s.loops[l], Final(s, run).loops[l], TurnsOf(run, l))
    ensures 0 < TurnsOf(run, l) ==>
              (TurnsOf(run, l) - 1) * Min(s.loops[l].tick, SLEEP_AT_LEAST) <= Final(s, run).now - s.now
  {
    ReachableIsOk(s);
    RunKeeps(s, run);
    TurnsAlongTheRun(s, run, l);
    assert SleeperOk(s.now, s.replica.jobs, s.loops[l]);
    assert SleeperOk(Final(s, run).now, Final(s, run).replica.jobs, Final(s, run).loops[l]);
  }
}
