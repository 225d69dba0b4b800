/** The runner of one process: the objects the loop walks, proved against the steps of `CronState`. */
module CronRunner {
  import opened Results
  import opened CronSchedule
  import opened CronSlotLock
  import opened CronState
  import opened CronTimed

  /** One armed job: its declaration, when it next runs, and the token of the run in flight, zero for none. */
  class ScheduledJob {
    const job: Scheduled
    var nextRun: Option<int>
    var runToken: nat
    ghost var taken: seq<Taken>

    constructor (job: Scheduled, nextRun: Option<int>)
      ensures this.job == job && View() == Armed(job, nextRun, 0, [])
    {
      this.job := job;
      this.nextRun := nextRun;
      runToken := 0;
      taken := [];
    }

    ghost function View(): Armed
      reads this
    {
      Armed(job, nextRun, runToken, taken)
    }

    /** When this job next runs, computed against the clock the first time it is asked. */
    method AskNextRun(now: int) returns (r: Result<int, DeclarationError>)
      requires job.schedule.Interval? ==> 0 < job.schedule.every
      modifies this`nextRun
      ensures r == NextRunAt(old(View()), now)
      ensures View() == if r.Success? then old(View()).(next := Some(r.value)) else old(View())
    {
      if nextRun.Some? {
        return Success(nextRun.value);
      }
      r := NextRun(job.schedule, now);
      if r.Success? {
        nextRun := Some(r.value);
      }
    }

    /** Takes the current occurrence and moves on to the next. A schedule with no next one moves nothing. */
    method TakeSlot(now: int) returns (r: Result<int, DeclarationError>)
      requires job.schedule.Interval? ==> 0 < job.schedule.every
      requires nextRun.Some? && nextRun.value <= now
      modifies this`nextRun, this`taken
      ensures var look := TakeIfDue(old(View()), now);
              && View() == look.armed
              && (r.Success? <==> look.Look?)
              && (r.Success? ==> look.due == Some(r.value))
    {
      var slot := nextRun.value;
      var next := NextRunAfterSlot(job.schedule, slot, now);
      if next.Failure? {
        return Failure(next.error);
      }
      nextRun := Some(next.value);
      taken := taken + [Taken(slot, now)];
      r := Success(slot);
    }

    /** Asks this job for its slot when it is due, which moves it on to the next one. */
    method TakeDue(now: int) returns (due: Option<int>, crashed: bool)
      requires job.schedule.Interval? ==> 0 < job.schedule.every
      modifies this`nextRun, this`taken
      ensures View() == TakeIfDue(old(View()), now).armed
      ensures var look := TakeIfDue(old(View()), now); if crashed then look.Broken? else look.Look? && look.due == due
    {
      due, crashed := None, false;
      var next := AskNextRun(now);
      if next.Failure? {
        return None, true;
      }
      if next.value <= now {
        var slot := TakeSlot(now);
        if slot.Failure? {
          return None, true;
        }
        due := Some(slot.value);
      }
    }

    method BeginRun(token: nat)
      modifies this`runToken
      ensures View() == old(View()).(token := token)
    {
      runToken := token;
    }

    /** Frees the job, but only if `token` is still the one that took it. */
    method EndRun(token: nat)
      modifies this`runToken
      ensures View() == if old(runToken) == token then old(View()).(token := 0) else old(View())
    {
      if runToken == token {
        runToken := 0;
      }
    }
  }

  ghost function Views(jobs: seq<ScheduledJob>): (r: seq<Armed>)
    reads jobs
    ensures |r| == |jobs| && forall i | 0 <= i < |jobs| :: r[i] == jobs[i].View()
  {
    seq(|jobs|, i requires 0 <= i < |jobs| reads jobs => jobs[i].View())
  }

  // ------------------------------------------------------------------ runner

  /** An undisturbed visit to job `k` leads from `r` to `next`. */
  ghost predicate VisitsTo(r: Replica, k: nat, next: Replica, now: int)
  {
    r.gates != [] && Positive(r) && k < |r.jobs| && Visited(r, k, now) == Turn(next, false)
  }

  /** Each state follows from the one before by an undisturbed visit to the next job. */
  ghost predicate VisitedInTurn(states: seq<Replica>, now: int)
  {
    forall k | 0 <= k < |states| - 1 :: VisitsTo(states[k], k, states[k + 1], now)
  }

  lemma OneMoreVisit(states: seq<Replica>, next: Replica, now: int)
    requires states != [] && VisitedInTurn(states, now) && VisitsTo(states[|states| - 1], |states| - 1, next, now)
    ensures VisitedInTurn(states + [next], now)
  {
  }

  lemma WalkStep(r: Replica, next: Replica, k: nat, now: int)
    requires r.gates != [] && Positive(r) && k < |r.jobs| && Visited(r, k, now) == Turn(next, false)
    requires next.gates != [] && Positive(next)
    ensures k + 1 <= |next.jobs| && Walk(r, k, now) == Walk(next, k + 1, now)
  {
  }

  /** Visits in turn, up to the last job or a crash, are what the walk computes. */
  lemma {:induction false} WalkAlong(states: seq<Replica>, now: int, end: Turn, k: nat)
    requires VisitedInTurn(states, now) && k < |states|
    requires forall r <- states :: Positive(r) && r.gates != []
    requires var last, r := |states| - 1, states[|states| - 1];
             if end.crashed then last < |r.jobs| && Visited(r, last, now) == end
             else last == |r.jobs| && end.replica == r
    ensures k <= |states[k].jobs| && Walk(states[k], k, now) == end
    decreases |states| - k
  {
    if k < |states| - 1 {
      WalkAlong(states, now, end, k + 1);
      assert VisitsTo(states[k], k, states[k + 1], now);
      WalkStep(states[k], states[k + 1], k, now);
    }
  }

  /** The earliest of what the first `n` jobs stand at, none when none of them was ever asked. */
  ghost predicate IsEarliest(jobs: seq<Armed>, n: nat, earliest: Option<int>)
    requires n <= |jobs|
  {
    && (forall k | 0 <= k < n && jobs[k].next.Some? :: earliest.Some? && earliest.value <= jobs[k].next.value)
    && (earliest.Some? ==> exists k | 0 <= k < n :: jobs[k].next == earliest)
  }

  function Earlier(earliest: Option<int>, next: int): Option<int>
  {
    if earliest.None? || next < earliest.value then Some(next) else earliest
  }

  lemma EarliestOfMore(jobs: seq<Armed>, b: Armed, n: nat, earliest: Option<int>)
    requires n < |jobs| && IsEarliest(jobs, n, earliest) && b.next.Some?
    ensures IsEarliest(jobs[n := b], n + 1, Earlier(earliest, b.next.value))
  {
    var more := jobs[n := b];
    assert more[n].next == b.next;
    if earliest.Some? && earliest.value <= b.next.value {
      var k :| 0 <= k < n && jobs[k].next == earliest;
      assert more[k].next == earliest;
    }
  }

  /** Sleeping for the earliest of what the jobs stand at is a sleep none of them pays for. */
  lemma SleepsForTheEarliest(jobs: seq<Armed>, earliest: Option<int>, atMost: int, now: int, d: int)
    requires IsEarliest(jobs, |jobs|, earliest)
    requires d == if earliest.None? then atMost else Min(atMost, Max(SLEEP_AT_LEAST, earliest.value - now))
    ensures Sleeps(jobs, atMost, now, d)
  {
    if earliest.Some? {
      var k :| 0 <= k < |jobs| && jobs[k].next == earliest;
      assert jobs[k] in jobs;
    }
  }

  /** Whether `b` is `a` once it was asked when it next runs, at `now` if it had not been before. */
  ghost predicate Asked(a: Armed, b: Armed, now: int)
  {
    && (a.job.schedule.Interval? ==> 0 < a.job.schedule.every)
    && b.next.Some? && NextRunAt(a, now) == Success(b.next.value) && b == a.(next := b.next)
  }

  /** The first `n` jobs were asked, and nothing else of any job moved. */
  ghost predicate AskedUpTo(before: seq<Armed>, after: seq<Armed>, n: nat, now: int)
  {
    && |after| == |before| && n <= |before|
    && (forall k | 0 <= k < n :: Asked(before[k], after[k], now))
    && (forall k | n <= k < |before| :: after[k] == before[k])
  }

  lemma AskedOneMore(before: seq<Armed>, was: seq<Armed>, b: Armed, n: nat, now: int)
    requires AskedUpTo(before, was, n, now) && n < |before| && Asked(before[n], b, now)
    ensures AskedUpTo(before, was[n := b], n + 1, now)
  {
  }

  /** Asking jobs that all stand at an occurrence changes nothing. */
  lemma AskingAgain(before: seq<Armed>, after: seq<Armed>, now: int)
    requires AskedUpTo(before, after, |before|, now) && forall i | 0 <= i < |before| :: before[i].next.Some?
    ensures after == before
  {
    forall i | 0 <= i < |before|
      ensures after[i] == before[i]
    {
      assert Asked(before[i], after[i], now);
    }
  }

  class CronRunner {
    var jobs: seq<ScheduledJob>
    var runTokenCounter: nat
    var running: bool
    var loops: nat
    var gates: seq<Gate>
    var runs: map<nat, Run>

    ghost predicate Valid()
      reads this, jobs
    {
      && gates != []
      && (forall i, j | 0 <= i < j < |jobs| :: jobs[i] != jobs[j])
      && (forall i | 0 <= i < |jobs| :: jobs[i].job.schedule.Interval? ==> 0 < jobs[i].job.schedule.every)
    }

    ghost function View(): (r: Replica)
      reads this, jobs
    {
      Replica(Views(jobs), runTokenCounter, running, loops, gates, runs)
    }

    constructor ()
      ensures Valid() && View() == FRESH
    {
      jobs := [];
      runTokenCounter := 0;
      running := false;
      loops := 0;
      gates := [Gate(DEFAULT_MAX_CONCURRENT, {})];
      runs := map[];
    }

    /** Arms a job, its first occurrence computed at once when the clock is there. */
    method Register(job: Scheduled, clock: Option<int>) returns (r: Option<RegisterError>)
      requires Valid() && (job.schedule.Interval? ==> 0 < job.schedule.every)
      modifies this`jobs
      ensures Valid()
      ensures match Registered(old(View()), job, clock)
              case Success(after) => r == None && View() == after
              case Failure(e) => r == Some(e) && View() == old(View())
    {
      for i := 0 to |jobs|
        invariant forall k | 0 <= k < i :: jobs[k].job.name != job.name
      {
        if jobs[i].job.name == job.name {
          assert View().jobs[i].job.name == job.name;
          return Some(Duplicate);
        }
      }
      var first := None;
      if clock.Some? {
        var t := NextRun(job.schedule, clock.value);
        if t.Failure? {
          return Some(Undeclarable(t.error));
        }
        first := Some(t.value);
      }
      var armed := new ScheduledJob(job, first);
      jobs := jobs + [armed];
      r := None;
      assert View().jobs == old(View()).jobs + [Armed(job, first, 0, [])];
    }

    method Start(maxConcurrent: nat)
      requires Valid()
      modifies this
      ensures Valid() && jobs == old(jobs) && View() == Started(old(View()), maxConcurrent)
    {
      if running {
        return;
      }
      running := true;
      loops := loops + 1;
      gates := gates + [Gate(maxConcurrent, {})];
    }

    method Stop()
      requires Valid()
      modifies this`running
      ensures Valid() && View() == Stopped(old(View()))
    {
      running := false;
    }

    /** Marks job `i` as running for `slot`, and queues its run behind the gate. */
    method Fire(i: nat, slot: int)
      requires Valid() && i < |jobs|
      modifies this`runTokenCounter, this`runs, jobs[i]
      ensures Valid() && View() == Fired(old(View()), i, slot)
    {
      ghost var before := View();
      runTokenCounter := runTokenCounter + 1;
      jobs[i].BeginRun(runTokenCounter);
      runs := runs[runTokenCounter := Run(i, slot, |gates| - 1, Queued)];
      assert View().jobs == before.jobs[i := before.jobs[i].(token := runTokenCounter)];
    }

    /** The loop's visit to one job. */
    method Visit(i: nat, now: int) returns (crashed: bool)
      requires Valid() && i < |jobs|
      modifies this`runTokenCounter, this`runs, jobs[i]
      ensures Valid() && Positive(old(View())) && Turn(View(), crashed) == Visited(old(View()), i, now)
    {
      ghost var before := View();
      var due;
      due, crashed := jobs[i].TakeDue(now);
      assert View().jobs == before.jobs[i := TakeIfDue(before.jobs[i], now).armed];
      if !crashed && due.Some? && jobs[i].runToken == 0 {
        Fire(i, due.value);
      }
    }

    lemma ValidIsPositive()
      requires Valid()
      ensures Positive(View())
    {
    }

    /** The walk over the schedule: every due occurrence is taken, whatever happens to it next. */
    method WalkJobs(now: int) returns (crashed: bool)
      requires Valid()
      modifies this`runTokenCounter, this`runs, jobs
      ensures Valid() && Positive(old(View()))
      ensures Turn(View(), crashed) == Walk(old(View()), 0, now)
    {
      ghost var states := [View()];
      var i := 0;
      while i < |jobs|
        invariant 0 <= i <= |jobs| && Valid()
        invariant |states| == i + 1 && states[0] == old(View()) && states[i] == View()
        invariant VisitedInTurn(states, now) && forall r <- states :: Positive(r) && r.gates != []
      {
        ValidIsPositive();
        crashed := Visit(i, now);
        ValidIsPositive();
        if crashed {
          WalkAlong(states, now, Turn(View(), true), 0);
          return;
        }
        OneMoreVisit(states, View(), now);
        states := states + [View()];
        i := i + 1;
      }
      crashed := false;
      WalkAlong(states, now, Turn(View(), false), 0);
    }

    /** One turn of the loop: it ends if the runner was stopped, and a crash takes the runner down with it. */
    method Wake(now: int)
      requires Valid()
      modifies this, jobs
      ensures Valid() && jobs == old(jobs) && Positive(old(View())) && View() == Woken(old(View()), now)
    {
      if loops == 0 {
        return;
      }
      if !running {
        loops := loops - 1;
        return;
      }
      var crashed := WalkJobs(now);
      if crashed {
        running := false;
        loops := loops - 1;
      }
    }

    /** Asks job `i` when it next runs. */
    method AskOne(i: nat, now: int) returns (r: Result<int, DeclarationError>)
      requires Valid() && i < |jobs|
      modifies jobs[i]
      ensures Valid()
      ensures match r
              case Success(next) =>
                var b := old(View()).jobs[i].(next := Some(next));
                Asked(old(View()).jobs[i], b, now) && View().jobs == old(View()).jobs[i := b]
              case Failure(_) => View().jobs == old(View()).jobs && old(View()).jobs[i].next == None
    {
      r := jobs[i].AskNextRun(now);
      assert View().jobs == old(View()).jobs[i := jobs[i].View()];
    }

    /** The earliest occurrence any job stands at, each asked when it next runs; `asked` of them answered. */
    method Earliest(now: int) returns (r: Result<Option<int>, DeclarationError>, ghost asked: nat)
      requires Valid()
      modifies jobs
      ensures Valid() && jobs == old(jobs)
      ensures AskedUpTo(old(View()).jobs, View().jobs, asked, now)
      ensures if r.Success? then asked == |jobs| else asked < |jobs| && old(View()).jobs[asked].next == None
      ensures r.Success? ==> IsEarliest(View().jobs, |jobs|, r.value)
    {
      ghost var before := View().jobs;
      var earliest: Option<int> := None;
      asked := 0;
      for i := 0 to |jobs|
        invariant Valid() && jobs == old(jobs) && asked == i
        invariant AskedUpTo(before, View().jobs, i, now)
        invariant IsEarliest(View().jobs, i, earliest)
      {
        ghost var was := View().jobs;
        var next := AskOne(i, now);
        if next.Failure? {
          return Failure(next.error), asked;
        }
        ghost var b := was[i].(next := Some(next.value));
        AskedOneMore(before, was, b, i, now);
        EarliestOfMore(was, b, i, earliest);
        earliest := Earlier(earliest, next.value);
        asked := asked + 1;
      }
      r := Success(earliest);
    }

    /** How long to sleep before the next turn, never longer than `atMost`. */
    method SleepFor(atMost: int, now: int) returns (r: Result<int, DeclarationError>, ghost asked: nat)
      requires Valid()
      modifies jobs
      ensures Valid() && jobs == old(jobs)
      ensures AskedUpTo(old(View()).jobs, View().jobs, asked, now)
      ensures if r.Success? then asked == |jobs| else asked < |jobs| && old(View()).jobs[asked].next == None
      ensures r.Success? ==> Sleeps(View().jobs, atMost, now, r.value)
    {
      var earliest;
      earliest, asked := Earliest(now);
      if earliest.Failure? {
        return Failure(earliest.error), asked;
      }
      if earliest.value.None? {
        r := Success(atMost);
      } else {
        r := Success(Min(atMost, Max(SLEEP_AT_LEAST, earliest.value.value - now)));
      }
      SleepsForTheEarliest(View().jobs, earliest.value, atMost, now, r.value);
    }

    /** A sleep between jobs that all stand at an occurrence moves none of them. */
    method FallAsleep(tick: nat, now: int) returns (sleep: int)
      requires Valid() && forall i | 0 <= i < |jobs| :: jobs[i].nextRun.Some?
      modifies jobs
      ensures Valid() && jobs == old(jobs) && View() == old(View())
      ensures Sleeps(View().jobs, tick, now, sleep)
    {
      ghost var before := View().jobs;
      var d, asked := SleepFor(tick, now);
      AskingAgain(before, View().jobs, now);
      sleep := d.value;
    }

    /** One turn of the loop and how long it then sleeps, or none when the turn was its last. */
    method TakeTurn(tick: nat, now: int) returns (sleep: Option<int>)
      requires Valid() && loops != 0
      modifies this, jobs
      ensures Valid() && jobs == old(jobs) && Positive(old(View())) && View() == Woken(old(View()), now)
      ensures sleep.Some? <==> GoesOn(old(View()), now)
      ensures sleep.Some? ==> Sleeps(View().jobs, tick, now, sleep.value)
    {
      WalkLooks(View(), 0, now);
      Wake(now);
      if !running {
        return None;
      }
      TurnArmsEveryJob(old(View()), now);
      forall i | 0 <= i < |jobs|
        ensures jobs[i].nextRun.Some?
      {
        assert View().jobs[i] in View().jobs;
      }
      var d := FallAsleep(tick, now);
      sleep := Some(d);
    }

    method Admit(token: nat)
      requires Valid() && CanEnter(View(), token)
      modifies this
      ensures Valid() && jobs == old(jobs) && View() == Entered(old(View()), token)
    {
      var g := runs[token].gate;
      gates := gates[g := gates[g].(held := gates[g].held + {token})];
      runs := runs[token := runs[token].(phase := Admitted)];
    }

    /** The claim of an admitted run: its body starts when the store grants it, and it leaves the gate otherwise. */
    method Claim(token: nat, lock: SlotLock, now: int, transport: Transport)
      requires Valid() && InPhase(View(), token, Admitted)
      modifies this, lock
      ensures Valid() && jobs == old(jobs) && Positive(old(View()))
      ensures var run := old(runs[token]);
              var (markers, outcome) := ClaimOf(old(lock.markers), old(jobs)[run.job].job, run.slot, now, transport);
              && lock.markers == markers
              && View() == if outcome == Won then Begun(old(View()), token) else CronState.Left(old(View()), token)
    {
      var job := jobs[runs[token].job].job;
      var mayRun := lock.Claim(job, runs[token].slot, now, transport);
      if mayRun {
        runs := runs[token := runs[token].(phase := Running)];
      } else {
        LeaveGate(token);
      }
    }

    /** A run leaves its gate: refused, ended, failed or out of time. */
    method LeaveGate(token: nat)
      requires Valid() && (InPhase(View(), token, Admitted) || InPhase(View(), token, Running))
      modifies this
      ensures Valid() && jobs == old(jobs) && View() == CronState.Left(old(View()), token)
    {
      var g := runs[token].gate;
      gates := gates[g := gates[g].(held := gates[g].held - {token})];
      runs := runs[token := runs[token].(phase := Released)];
    }

    /** What the `finally` of a run does, however late it lands. */
    method Finish(token: nat)
      requires Valid() && InPhase(View(), token, Released)
      modifies this, jobs[runs[token].job]
      ensures Valid() && jobs == old(jobs) && View() == Ended(old(View()), token)
    {
      var i := runs[token].job;
      jobs[i].EndRun(token);
      runs := runs - {token};
      assert View().jobs == Ended(old(View()), token).jobs;
    }
  }
}
