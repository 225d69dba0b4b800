/** The fleet-wide claim of one occurrence: a marker set only when absent, which expires on its own. */
module CronSlotLock {
  import opened Results
  import opened CronSchedule
  import opened Text

  /** The instant an occurrence is claimed under: an interval is floored to a multiple of itself. */
  function InstantOf(job: Scheduled, slot: int): int
    requires job.schedule.Interval? ==> 0 < job.schedule.every
  {
    if job.schedule.Interval? then (slot / job.schedule.every) * job.schedule.every else slot
  }

  const KEY_PREFIX := "cron:lock:"

  function KeyFor(job: Scheduled, slot: int): string
    requires job.schedule.Interval? ==> 0 < job.schedule.every
  {
    KEY_PREFIX + job.name + ":" + Decimal(InstantOf(job, slot))
  }

  function Max(a: int, b: int): int
  {
    if a < b then b else a
  }

  /** How long the marker of `slot` is held: the gap to the next occurrence, the timeout at least. */
  function LeaseFor(job: Scheduled, slot: int): (r: Result<int, DeclarationError>)
    requires job.schedule.Interval? ==> 0 < job.schedule.every
  {
    match AfterSlot(job.schedule, slot, slot)
    case Success(next) => Success(Max(next - slot, job.timeout))
    case Failure(e) => Failure(e)
  }

  // ------------------------------------------------------------------- keys

  /** One key names one job and one instant, even when job names hold the separator. */
  lemma KeyIsInjective(job: Scheduled, slot: int, job': Scheduled, slot': int)
    requires job.schedule.Interval? ==> 0 < job.schedule.every
    requires job'.schedule.Interval? ==> 0 < job'.schedule.every
    ensures KeyFor(job, slot) == KeyFor(job', slot')
       <==> job.name == job'.name && InstantOf(job, slot) == InstantOf(job', slot')
  {
    var n, n' := Decimal(InstantOf(job, slot)), Decimal(InstantOf(job', slot'));
    if KeyFor(job, slot) == KeyFor(job', slot') {
      SplitAtLast(KEY_PREFIX + job.name, n, KEY_PREFIX + job'.name, n', ':');
      assert (KEY_PREFIX + job.name)[|KEY_PREFIX|..] == job.name;
      assert (KEY_PREFIX + job'.name)[|KEY_PREFIX|..] == job'.name;
      DecimalInjective(InstantOf(job, slot), InstantOf(job', slot'));
    }
  }

  /** Two replicas name one key exactly when their slots lie in one cell of the grid. */
  lemma OneKeyPerCell(job: Scheduled, slot: int, slot': int)
    requires job.schedule.Interval? && 0 < job.schedule.every
    ensures KeyFor(job, slot) == KeyFor(job, slot') <==> slot / job.schedule.every == slot' / job.schedule.every
  {
    KeyIsInjective(job, slot, job, slot');
    MultipleIsOnGrid(slot / job.schedule.every, job.schedule.every);
    MultipleIsOnGrid(slot' / job.schedule.every, job.schedule.every);
  }

  /** An instant a schedule can name: on the grid of the epoch for an interval, any for a calendar. */
  predicate Nameable(schedule: Schedule, slot: int)
    requires schedule.Interval? ==> 0 < schedule.every
  {
    schedule.Interval? ==> slot % schedule.every == 0
  }

  /** Flooring changes nothing about a slot a schedule names, so distinct slots have distinct keys. */
  lemma FlooringIsTheIdentity(job: Scheduled, slot: int)
    requires job.schedule.Interval? ==> 0 < job.schedule.every
    requires Nameable(job.schedule, slot)
    ensures InstantOf(job, slot) == slot
  {
  }

  // ------------------------------------------------------------------ lease

  /** A marker outlives its own occurrence, and whatever time the body is given. */
  lemma LeaseCoversTheOccurrence(job: Scheduled, slot: int)
    requires Declared(job.schedule)
    ensures var lease := LeaseFor(job, slot);
            && (lease.Failure? <==> NextRun(job.schedule, slot).Failure?)
            && (lease.Success? ==>
                  && 0 < lease.value && job.timeout <= lease.value
                  && AfterSlot(job.schedule, slot, slot).value <= slot + lease.value
                  && (job.schedule.Interval? ==> lease.value == Max(job.schedule.every, job.timeout)))
  {
    NextRunIsAhead(job.schedule, slot);
  }

  /** A calendar's lease is the gap to its very next occurrence, or the timeout when that is longer. */
  lemma LeaseIsGapOrTimeout(job: Scheduled, slot: int, t: int)
    requires Declared(job.schedule) && !job.schedule.Interval?
    requires Occurs(job.schedule, slot, t) && forall u | Occurs(job.schedule, slot, u) :: t <= u
    ensures LeaseFor(job, slot) == Success(if t - slot < job.timeout then job.timeout else t - slot)
  {
    AfterSlotIsTheNextOccurrence(job.schedule, slot, slot, t);
  }

  // ------------------------------------------------------------------ claim

  /** The marker store: each key with the instant its marker expires. */
  type Markers = map<string, int>

  /** How one call to the store went: delivered, never delivered, or delivered with its answer lost. */
  datatype Transport = Delivered | Unreachable | AnswerLost

  /** What a claim came to. Only `Won` lets the body run; `Lost` left a marker nobody runs under. */
  datatype ClaimOutcome = Won | Refused | Lost | Down

  predicate Held(markers: Markers, key: string, now: int)
  {
    key in markers && now < markers[key]
  }

  function ClaimOf(markers: Markers, job: Scheduled, slot: int, now: int, transport: Transport)
    : (r: (Markers, ClaimOutcome))
    requires job.schedule.Interval? ==> 0 < job.schedule.every
    ensures r.1 == Won <==> LeaseFor(job, slot).Success? && transport == Delivered && !Held(markers, KeyFor(job, slot), now)
    ensures r.1 == Down <==> LeaseFor(job, slot).Failure? || transport == Unreachable
    ensures r.1 in {Refused, Down} ==> r.0 == markers
  {
    var key := KeyFor(job, slot);
    match LeaseFor(job, slot)
    case Failure(_) => (markers, Down)
    case Success(lease) =>
      if transport == Unreachable then (markers, Down)
      else if Held(markers, key, now) then (markers, Refused)
      else (markers[key := now + lease], if transport == Delivered then Won else Lost)
  }

  /** The shared store as one replica reaches it. */
  class SlotLock {
    var markers: Markers

    constructor ()
      ensures markers == map[]
    {
      markers := map[];
    }

    /** Takes the occurrence if nobody has, and answers whether this replica may run it. */
    method Claim(job: Scheduled, slot: int, now: int, transport: Transport) returns (mayRun: bool)
      requires job.schedule.Interval? ==> 0 < job.schedule.every
      modifies this
      ensures (markers, mayRun) ==
              (ClaimOf(old(markers), job, slot, now, transport).0, ClaimOf(old(markers), job, slot, now, transport).1 == Won)
    {
      var next := NextRunAfterSlot(job.schedule, slot, slot);
      if next.Failure? || transport == Unreachable {
        return false;
      }
      var lease := Max(next.value - slot, job.timeout);
      var key := KeyFor(job, slot);
      if key in markers && now < markers[key] {
        return false;
      }
      markers := markers[key := now + lease];
      mayRun := transport == Delivered;
    }
  }
}
