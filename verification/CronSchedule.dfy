/** When a job runs: the three schedule shapes, and the instants each one names. Instants are epoch milliseconds. */
module CronSchedule {
  import opened Results

  const ONE_MINUTE := 60_000

  datatype DeclarationError = NotWholeMinutes | NoFutureRun

  /** What the calendar library answers: the next occurrence after an instant, or none. */
  type Calendar = int -> Option<int>

  datatype Schedule =
    | Interval(every: int)
    | CronExpression(job: Calendar)
    | Daily(jobs: seq<Calendar>)

  /** A declared job: its name, when it runs, and how long its body is given. */
  datatype Scheduled = Scheduled(name: string, schedule: Schedule, timeout: int)

  /** A calendar only ever names instants after the one it was asked about. */
  ghost predicate LooksAhead(job: Calendar)
  {
    forall t: int :: job(t).Some? ==> t < job(t).value
  }

  /** What the declaration of a schedule guarantees about it. */
  ghost predicate Declared(schedule: Schedule)
  {
    match schedule
    case Interval(every) => 0 < every && every % ONE_MINUTE == 0
    case CronExpression(job) => LooksAhead(job)
    case Daily(jobs) => jobs != [] && forall job <- jobs :: LooksAhead(job)
  }

  /** `ms` as a positive whole number of minutes, or the refusal. */
  function WholeMinutes(ms: real): (r: Result<int, DeclarationError>)
    ensures r.Success? ==> r.value as real == ms && Declared(Interval(r.value))
    ensures r.Failure? ==> forall n: int :: n as real == ms ==> !Declared(Interval(n))
  {
    if ms.Floor as real != ms || ms <= 0.0 || ms.Floor % ONE_MINUTE != 0 then Failure(NotWholeMinutes)
    else Success(ms.Floor)
  }

  // ---------------------------------------------------------------- division

  lemma ScaleKeepsOrder(a: int, b: int, step: int)
    requires 0 < step
    ensures a <= b <==> a * step <= b * step
    ensures (a + 1) * step == a * step + step
  {
  }

  lemma DivisionIsUnique(x: int, step: int, q: int)
    requires 0 < step
    requires q * step <= x < (q + 1) * step
    ensures x / step == q
  {
    var d := x / step;
    assert d * step <= x < (d + 1) * step;
    ScaleKeepsOrder(d + 1, q, step);
    ScaleKeepsOrder(q + 1, d, step);
  }

  lemma MultipleIsOnGrid(k: int, step: int)
    requires 0 < step
    ensures (k * step) % step == 0
    ensures (k * step) / step == k
  {
    DivisionIsUnique(k * step, step, k);
  }

  // ------------------------------------------------------------- occurrences

  function Least(instants: seq<int>): (r: int)
    requires instants != []
    ensures r in instants
    ensures forall t <- instants :: r <= t
  {
    if |instants| == 1 then instants[0]
    else
      var rest := Least(instants[1..]);
      assert instants == [instants[0]] + instants[1..];
      if instants[0] < rest then instants[0] else rest
  }

  /** What the calendars that still have an occurrence answer, in order. */
  function Candidates(jobs: seq<Calendar>, after: int): (r: seq<int>)
    ensures forall t :: t in r <==> exists job <- jobs :: job(after) == Some(t)
  {
    if jobs == [] then []
    else
      (match jobs[0](after) case Some(t) => [t] case None => []) + Candidates(jobs[1..], after)
  }

  /** When `schedule` next fires after `after`. */
  function NextRun(schedule: Schedule, after: int): (r: Result<int, DeclarationError>)
    requires schedule.Interval? ==> 0 < schedule.every
  {
    match schedule
    case Interval(every) => Success((after / every + 1) * every)
    case CronExpression(job) =>
      (match job(after)
       case Some(t) => Success(t)
       case None => Failure(NoFutureRun))
    case Daily(jobs) =>
      var candidates := Candidates(jobs, after);
      if candidates == [] then Failure(NoFutureRun) else Success(Least(candidates))
  }

  /**
   * An interval fires on the grid of the epoch: its next run is the only multiple of the interval
   * within one interval after the instant asked about.
   */
  lemma NextRunIsTheNextGridPoint(every: int, after: int, t: int)
    requires 0 < every
    ensures NextRun(Interval(every), after) == Success(t) <==> t % every == 0 && after < t <= after + every
  {
    var r := (after / every + 1) * every;
    MultipleIsOnGrid(after / every + 1, every);
    assert (after / every) * every <= after;
    if t % every == 0 && after < t <= after + every {
      assert t == (t / every) * every;
      DivisionIsUnique(t - every, every, t / every - 1);
      DivisionIsUnique(after, every, t / every - 1);
    }
  }

  /** `t` is an occurrence the schedule has after `after`: a grid point, or what one of its calendars answers. */
  ghost predicate Occurs(schedule: Schedule, after: int, t: int)
    requires schedule.Interval? ==> 0 < schedule.every
  {
    match schedule
    case Interval(every) => t % every == 0 && after < t
    case CronExpression(job) => job(after) == Some(t)
    case Daily(jobs) => exists job <- jobs :: job(after) == Some(t)
  }

  /** Whatever the shape, a next run is an occurrence strictly ahead. */
  lemma NextRunIsAhead(schedule: Schedule, after: int)
    requires Declared(schedule)
    ensures NextRun(schedule, after).Success? ==>
              after < NextRun(schedule, after).value && Occurs(schedule, after, NextRun(schedule, after).value)
  {
    if schedule.Interval? {
      NextRunIsTheNextGridPoint(schedule.every, after, NextRun(schedule, after).value);
    }
  }

  /** And no occurrence stands between it and now: when there is any at all, it is the least. */
  lemma NextRunIsLeast(schedule: Schedule, after: int, t: int)
    requires Declared(schedule) && Occurs(schedule, after, t)
    ensures NextRun(schedule, after).Success? && NextRun(schedule, after).value <= t
  {
    match schedule
    case Interval(every) =>
      NextRunIsTheNextGridPoint(every, after, NextRun(schedule, after).value);
      if t < NextRun(schedule, after).value {
        NextRunIsTheNextGridPoint(every, after, t);
      }
    case CronExpression(_) =>
    case Daily(jobs) =>
      assert t in Candidates(jobs, after);
  }

  /** Two processes that register at different moments of one cell name the same instant. */
  lemma RegistrationMomentsAgree(every: int, a: int, b: int)
    requires 0 < every
    ensures a / every == b / every <==> NextRun(Interval(every), a) == NextRun(Interval(every), b)
  {
    MultipleIsOnGrid(a / every + 1, every);
    MultipleIsOnGrid(b / every + 1, every);
  }

  // -------------------------------------------------- after one was taken

  /** Where the schedule stands once `slot` was taken at `now`, as a closed form. */
  function AfterSlot(schedule: Schedule, slot: int, now: int): (r: Result<int, DeclarationError>)
    requires schedule.Interval? ==> 0 < schedule.every
  {
    match schedule
    case Interval(every) =>
      var behind := if slot <= now then (now - slot) / every else 0;
      Success(slot + (behind + 1) * every)
    case _ => NextRun(schedule, now)
  }

  /** The catch-up loop: whole intervals are added until the occurrence is in the future. */
  method NextRunAfterSlot(schedule: Schedule, slot: int, now: int) returns (r: Result<int, DeclarationError>)
    requires schedule.Interval? ==> 0 < schedule.every
    ensures r == AfterSlot(schedule, slot, now)
  {
    if !schedule.Interval? {
      return NextRun(schedule, now);
    }
    var step := schedule.every;
    var next := slot + step;
    ghost var behind := 0;
    while next <= now
      invariant 0 <= behind && next == slot + (behind + 1) * step
      invariant behind == 0 || slot + behind * step <= now
      decreases now - next
    {
      next := next + step;
      behind := behind + 1;
      assert (behind + 1) * step == behind * step + step;
    }
    ScaleKeepsOrder(0, behind, step);
    if slot <= now {
      DivisionIsUnique(now - slot, step, behind);
    }
    r := Success(next);
  }

  /** The next interval occurrence is the least one past both the slot and the clock. */
  lemma AfterSlotIsLeast(every: int, slot: int, now: int, k: int)
    requires 0 < every
    ensures var next := AfterSlot(Interval(every), slot, now).value;
            && slot < next && now < next
            && (next - slot) % every == 0
            && (slot < slot + k * every && now < slot + k * every ==> next <= slot + k * every)
  {
    var behind := if slot <= now then (now - slot) / every else 0;
    MultipleIsOnGrid(behind + 1, every);
    ScaleKeepsOrder(0, behind, every);
    ScaleKeepsOrder(k, 0, every);
    ScaleKeepsOrder(k, behind, every);
    ScaleKeepsOrder(behind + 1, k, every);
    assert slot <= now ==> behind * every <= now - slot < behind * every + every;
  }

  /** A slot on the grid of the epoch leaves the schedule where a fresh registration would put it. */
  lemma CatchUpMeetsRegistration(every: int, slot: int, now: int)
    requires 0 < every && slot % every == 0 && slot <= now
    ensures AfterSlot(Interval(every), slot, now) == NextRun(Interval(every), now)
  {
    var q := slot / every;
    var behind := (now - slot) / every;
    assert slot == q * every;
    assert behind * every <= now - slot < (behind + 1) * every;
    assert (q + behind) * every == q * every + behind * every;
    assert (q + behind + 1) * every == q * every + (behind + 1) * every;
    DivisionIsUnique(now, every, q + behind);
  }

  /** Taking a slot of the grid, however late, leaves the job on the grid and past the slot. */
  lemma AfterSlotStaysOnGrid(every: int, slot: int, now: int)
    requires 0 < every && slot % every == 0
    ensures var next := AfterSlot(Interval(every), slot, now).value;
            next % every == 0 && slot + every <= next
  {
    var behind := if slot <= now then (now - slot) / every else 0;
    var q := slot / every;
    assert slot == q * every;
    assert (q + behind + 1) * every == q * every + (behind + 1) * every;
    MultipleIsOnGrid(q + behind + 1, every);
    assert (behind + 1) * every == behind * every + every;
    assert 0 <= behind * every;
  }

  /** A calendar schedule goes on with its least occurrence after the clock, and has none left exactly when it stops. */
  lemma AfterSlotIsTheNextOccurrence(schedule: Schedule, slot: int, now: int, t: int)
    requires Declared(schedule) && !schedule.Interval?
    ensures match AfterSlot(schedule, slot, now)
            case Success(next) =>
              now < next && Occurs(schedule, now, next) && (Occurs(schedule, now, t) ==> next <= t)
            case Failure(_) => !Occurs(schedule, now, t)
  {
    NextRunIsAhead(schedule, now);
    if Occurs(schedule, now, t) {
      NextRunIsLeast(schedule, now, t);
    }
  }

  // --------------------------------------------------- what a schedule names

  /** A calendar that never skips one of its own occurrences, from wherever it is asked. */
  ghost predicate NeverSkips(job: Calendar)
  {
    forall a: int, b: int | job(a).Some? && b < job(a).value :: job(b).Some? && job(b).value <= job(a).value
  }

  ghost predicate Steady(schedule: Schedule)
  {
    match schedule
    case Interval(_) => true
    case CronExpression(job) => NeverSkips(job)
    case Daily(jobs) => forall job <- jobs :: NeverSkips(job)
  }

  /** `t` is one of the instants of a schedule: a grid point, or what one of its calendars ever answers. */
  ghost predicate Names(schedule: Schedule, t: int)
    requires schedule.Interval? ==> 0 < schedule.every
  {
    match schedule
    case Interval(every) => t % every == 0
    case CronExpression(job) => exists a: int :: job(a) == Some(t)
    case Daily(jobs) => exists job <- jobs, a: int :: job(a) == Some(t)
  }

  /** Asked before one of its instants, a steady schedule answers that instant or an earlier one. */
  lemma NamedIsAnswered(schedule: Schedule, now: int, g: int) returns (t: int)
    requires Declared(schedule) && Steady(schedule) && Names(schedule, g) && now < g
    ensures Occurs(schedule, now, t) && t <= g
  {
    match schedule
    case Interval(_) => t := g;
    case CronExpression(job) =>
      var a: int :| job(a) == Some(g);
      t := job(now).value;
    case Daily(jobs) =>
      var job, a: int :| job in jobs && job(a) == Some(g);
      assert NeverSkips(job);
      t := job(now).value;
  }
}
