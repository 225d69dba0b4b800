/** One replica's runner as a value: its armed jobs, its gates and its runs, and what each step makes of them. */
module CronState {
  import opened Results
  import opened CronSchedule
  import opened CronSlotLock

  /** One occurrence this replica took, and what its clock said when it did. */
  datatype Taken = Taken(slot: int, now: int)

  /** One armed job. `token` is zero when no run of it is in flight; `taken` is its history. */
  datatype Armed = Armed(job: Scheduled, next: Option<int>, token: nat, taken: seq<Taken>)

  /** Where one fired occurrence stands between `beginRun` and `endRun`. */
  datatype Phase = Queued | Admitted | Running | Released

  datatype Run = Run(job: nat, slot: int, gate: nat, phase: Phase)

  /** A semaphore: how many it lets through, and who is inside. */
  datatype Gate = Gate(limit: nat, held: set<nat>)

  const DEFAULT_MAX_CONCURRENT: nat := 20

  datatype Replica = Replica(
    jobs: seq<Armed>,
    counter: nat,
    running: bool,
    loops: nat,
    gates: seq<Gate>,
    runs: map<nat, Run>)

  const FRESH := Replica([], 0, false, 0, [Gate(DEFAULT_MAX_CONCURRENT, {})], map[])

  /** Every interval a job of this replica runs on is positive. */
  ghost predicate Positive(r: Replica)
  {
    forall a <- r.jobs :: a.job.schedule.Interval? ==> 0 < a.job.schedule.every
  }

  // ------------------------------------------------------------------ one job

  /** The next occurrence, computed against the clock the first time it is asked for. */
  function NextRunAt(a: Armed, now: int): Result<int, DeclarationError>
    requires a.job.schedule.Interval? ==> 0 < a.job.schedule.every
  {
    match a.next
    case Some(t) => Success(t)
    case None => NextRun(a.job.schedule, now)
  }

  /** Whether an occurrence has arrived, and which: the job as asking leaves it, and the slot when due. */
  datatype Look = Look(armed: Armed, due: Option<int>) | Broken(armed: Armed)

  /** Asks a due job for its slot and moves it on to the next one, in one step. */
  function TakeIfDue(a: Armed, now: int): (r: Look)
    requires a.job.schedule.Interval? ==> 0 < a.job.schedule.every
    ensures r.armed.job == a.job && r.armed.token == a.token
  {
    match NextRunAt(a, now)
    case Failure(_) => Broken(a)
    case Success(slot) =>
      var armed := a.(next := Some(slot));
      if now < slot then Look(armed, None)
      else
        match AfterSlot(a.job.schedule, slot, now)
        case Failure(_) => Broken(armed)
        case Success(next) => Look(armed.(next := Some(next), taken := a.taken + [Taken(slot, now)]), Some(slot))
  }

  // --------------------------------------------------------------- one replica

  /** Marks job `i` as running under a fresh token, and queues its run behind the current gate. */
  function Fired(r: Replica, i: nat, slot: int): Replica
    requires i < |r.jobs| && r.gates != []
  {
    var token := r.counter + 1;
    r.(counter := token,
       jobs := r.jobs[i := r.jobs[i].(token := token)],
       runs := r.runs[token := Run(i, slot, |r.gates| - 1, Queued)])
  }

  /** What one turn of the loop came to. A schedule with no future run crashes the turn where it stands. */
  datatype Turn = Turn(replica: Replica, crashed: bool)

  /** The loop's visit to job `i`: its occurrence is taken when due, and fired unless the job still runs. */
  function Visited(r: Replica, i: nat, now: int): Turn
    requires i < |r.jobs| && r.gates != [] && Positive(r)
  {
    var look := TakeIfDue(r.jobs[i], now);
    var r1 := r.(jobs := r.jobs[i := look.armed]);
    if look.Broken? then Turn(r1, true)
    else if look.due.None? || look.armed.token != 0 then Turn(r1, false)
    else Turn(Fired(r1, i, look.due.value), false)
  }

  /** The walk over the jobs from index `i` on, against one reading of the clock. */
  function Walk(r: Replica, i: nat, now: int): Turn
    requires i <= |r.jobs| && r.gates != [] && Positive(r)
    decreases |r.jobs| - i
  {
    if i == |r.jobs| then Turn(r, false)
    else
      var turn := Visited(r, i, now);
      if turn.crashed then turn else Walk(turn.replica, i + 1, now)
  }

  /** A sleeping loop wakes: it ends if the runner was stopped, walks the schedule otherwise. */
  function Woken(r: Replica, now: int): Replica
    requires r.gates != [] && Positive(r)
  {
    if r.loops == 0 then r
    else if !r.running then r.(loops := r.loops - 1)
    else
      var turn := Walk(r, 0, now);
      if turn.crashed then turn.replica.(running := false, loops := r.loops - 1) else turn.replica
  }

  function Started(r: Replica, maxConcurrent: nat): Replica
  {
    if r.running then r
    else r.(running := true, loops := r.loops + 1, gates := r.gates + [Gate(maxConcurrent, {})])
  }

  function Stopped(r: Replica): Replica
  {
    r.(running := false)
  }

  datatype RegisterError = Duplicate | Undeclarable(error: DeclarationError)

  /** Arms a job. Its first occurrence is computed at once when the clock is there. */
  function Registered(r: Replica, job: Scheduled, clock: Option<int>): Result<Replica, RegisterError>
    requires job.schedule.Interval? ==> 0 < job.schedule.every
  {
    if exists i | 0 <= i < |r.jobs| :: r.jobs[i].job.name == job.name then Failure(Duplicate)
    else
      match clock
      case None => Success(r.(jobs := r.jobs + [Armed(job, None, 0, [])]))
      case Some(now) =>
        match NextRun(job.schedule, now)
        case Failure(e) => Failure(Undeclarable(e))
        case Success(t) => Success(r.(jobs := r.jobs + [Armed(job, Some(t), 0, [])]))
  }

  predicate InPhase(r: Replica, token: nat, phase: Phase)
  {
    token in r.runs && r.runs[token].phase == phase && r.runs[token].gate < |r.gates| && r.runs[token].job < |r.jobs|
  }

  function Moved(r: Replica, token: nat, phase: Phase): Replica
    requires token in r.runs
  {
    r.(runs := r.runs[token := r.runs[token].(phase := phase)])
  }

  predicate CanEnter(r: Replica, token: nat)
  {
    InPhase(r, token, Queued) && |r.gates[r.runs[token].gate].held| < r.gates[r.runs[token].gate].limit
  }

  /** The gate lets a queued run in. */
  function Entered(r: Replica, token: nat): Replica
    requires CanEnter(r, token)
  {
    var g := r.runs[token].gate;
    Moved(r, token, Admitted).(gates := r.gates[g := r.gates[g].(held := r.gates[g].held + {token})])
  }

  /** The body of an admitted run starts, its claim having been won. */
  function Begun(r: Replica, token: nat): Replica
    requires InPhase(r, token, Admitted)
  {
    Moved(r, token, Running)
  }

  /** A run leaves the gate: its claim was refused, or its body ended, failed or ran out of time. */
  function Left(r: Replica, token: nat): Replica
    requires InPhase(r, token, Admitted) || InPhase(r, token, Running)
  {
    var g := r.runs[token].gate;
    Moved(r, token, Released).(gates := r.gates[g := r.gates[g].(held := r.gates[g].held - {token})])
  }

  /** The late `finally` of a run: it frees the job, but only when the token is still the run's own. */
  function Ended(r: Replica, token: nat): Replica
    requires InPhase(r, token, Released)
  {
    var i := r.runs[token].job;
    r.(runs := r.runs - {token},
       jobs := if r.jobs[i].token == token then r.jobs[i := r.jobs[i].(token := 0)] else r.jobs)
  }

  // --------------------------------------------------------------- what it keeps

  /** One run at most per job, and the token of each job is exactly the run it has in flight. */
  ghost predicate TokensMatchRuns(r: Replica)
  {
    && (forall t <- r.runs :: 1 <= t <= r.counter && r.runs[t].job < |r.jobs| && r.jobs[r.runs[t].job].token == t)
    && (forall i | 0 <= i < |r.jobs| && r.jobs[i].token != 0 ::
          r.jobs[i].token in r.runs && r.runs[r.jobs[i].token].job == i)
  }

  /** Each gate holds exactly the runs that passed it and have not left, and never more than its limit. */
  ghost predicate GatesMatchRuns(r: Replica)
  {
    && r.gates != []
    && (forall t <- r.runs :: r.runs[t].gate < |r.gates|)
    && (forall g | 0 <= g < |r.gates| :: |r.gates[g].held| <= r.gates[g].limit)
    && (forall g, t | 0 <= g < |r.gates| ::
          t in r.gates[g].held <==> t in r.runs && r.runs[t].gate == g && r.runs[t].phase in {Admitted, Running})
  }

  ghost predicate NamesDiffer(r: Replica)
  {
    forall i, j | 0 <= i < j < |r.jobs| :: r.jobs[i].job.name != r.jobs[j].job.name
  }

  /** Occurrence `k` of a history, the pending one standing right after the last. */
  function SlotOf(next: Option<int>, taken: seq<Taken>, k: nat): int
    requires k <= |taken| && next.Some?
  {
    if k < |taken| then taken[k].slot else next.value
  }

  /** Occurrence `k` was due when taken, and the one after it is where the schedule then stood. */
  ghost predicate Link(schedule: Schedule, next: Option<int>, taken: seq<Taken>, k: nat)
    requires Declared(schedule) && k < |taken| && next.Some?
  {
    && taken[k].slot <= taken[k].now
    && Nameable(schedule, taken[k].slot)
    && AfterSlot(schedule, taken[k].slot, taken[k].now) == Success(SlotOf(next, taken, k + 1))
  }

  /** Every occurrence of the history follows from the one before it, and the pending one from the last. */
  ghost predicate History(schedule: Schedule, next: Option<int>, taken: seq<Taken>)
  {
    && Declared(schedule)
    && (next.Some? ==> Nameable(schedule, next.value))
    && (taken != [] ==> next.Some?)
    && (forall k | 0 <= k < |taken| :: Link(schedule, next, taken, k))
  }

  ghost predicate Chained(a: Armed)
  {
    History(a.job.schedule, a.next, a.taken)
  }

  /** Every job of the replica is one of the catalogue, under its own name. */
  ghost predicate FromCatalogue(catalogue: map<string, Scheduled>, r: Replica)
  {
    forall a <- r.jobs :: a.job.name in catalogue && catalogue[a.job.name] == a.job
  }

  ghost predicate RunnerInv(r: Replica)
  {
    && TokensMatchRuns(r)
    && GatesMatchRuns(r)
    && NamesDiffer(r)
    && (forall a <- r.jobs :: Chained(a))
  }
}
