/** Any number of replicas over one marker store: every interleaving of their steps, restarts included. */
module CronFleet {
  import opened Results
  import opened CronSchedule
  import opened CronSlotLock
  import opened CronState
  import opened CronInvariants

  /** One claim that reached the store: which occurrence, when on the store's clock, and what it came to. */
  datatype Attempt = Attempt(name: string, slot: int, at: int, lease: int, outcome: ClaimOutcome)

  /** The fleet: the store's clock and markers, the replicas, and the claims that reached the store so far. */
  datatype Fleet = Fleet(clock: int, markers: Markers, replicas: map<nat, Replica>, attempts: seq<Attempt>)

  /** What every replica was built with, and how far a replica's clock may stand from the store's. */
  datatype Config = Config(catalogue: map<string, Scheduled>, skew: nat)

  datatype Step =
    | Advance(elapsed: nat)
    | Boot(id: nat)
    | Register(id: nat, name: string, armedAt: Option<int>)
    | Start(id: nat, maxConcurrent: nat)
    | Stop(id: nat)
    | Wake(id: nat, reading: int)
    | Admit(id: nat, token: nat)
    | Claim(id: nat, token: nat, transport: Transport)
    | Finish(id: nat, token: nat)
    | End(id: nat, token: nat)

  ghost predicate Sound(c: Config)
  {
    forall name <- c.catalogue :: c.catalogue[name].name == name && Declared(c.catalogue[name].schedule)
  }

  predicate NearBy(reading: int, clock: int, skew: nat)
  {
    clock - skew <= reading <= clock + skew
  }

  /** Which steps a state allows. `Boot` is a new replica, or one that crashed and comes back empty. */
  ghost predicate Enabled(c: Config, s: Fleet, step: Step)
  {
    match step
    case Advance(_) => true
    case Boot(_) => true
    case Register(id, name, reading) =>
      id in s.replicas && name in c.catalogue && (reading.Some? ==> NearBy(reading.value, s.clock, c.skew))
      && Declared(c.catalogue[name].schedule)
    case Start(id, _) => id in s.replicas
    case Stop(id) => id in s.replicas
    case Wake(id, reading) =>
      id in s.replicas && NearBy(reading, s.clock, c.skew)
      && s.replicas[id].gates != [] && Positive(s.replicas[id])
    case Admit(id, token) => id in s.replicas && CanEnter(s.replicas[id], token)
    case Claim(id, token, _) =>
      id in s.replicas && InPhase(s.replicas[id], token, Admitted) && Positive(s.replicas[id])
    case Finish(id, token) => id in s.replicas && InPhase(s.replicas[id], token, Running)
    case End(id, token) => id in s.replicas && InPhase(s.replicas[id], token, Released)
  }

  /** A claim by the admitted run `token`: the store decides, and the run begins or leaves. */
  ghost function Claimed(s: Fleet, id: nat, token: nat, transport: Transport): Fleet
    requires id in s.replicas && InPhase(s.replicas[id], token, Admitted) && Positive(s.replicas[id])
  {
    var r := s.replicas[id];
    var run := r.runs[token];
    var job := r.jobs[run.job].job;
    var (markers, outcome) := ClaimOf(s.markers, job, run.slot, s.clock, transport);
    var r' := if outcome == Won then Begun(r, token) else Left(r, token);
    s.(markers := markers,
       replicas := s.replicas[id := r'],
       attempts := if outcome == Down then s.attempts
                   else s.attempts + [Attempt(job.name, run.slot, s.clock, LeaseFor(job, run.slot).value, outcome)])
  }

  ghost function Apply(c: Config, s: Fleet, step: Step): Fleet
    requires Enabled(c, s, step)
  {
    match step
    case Advance(elapsed) => s.(clock := s.clock + elapsed)
    case Boot(id) => s.(replicas := s.replicas[id := FRESH])
    case Register(id, name, reading) =>
      (match Registered(s.replicas[id], c.catalogue[name], reading)
       case Success(r) => s.(replicas := s.replicas[id := r])
       case Failure(_) => s)
    case Start(id, maxConcurrent) => s.(replicas := s.replicas[id := Started(s.replicas[id], maxConcurrent)])
    case Stop(id) => s.(replicas := s.replicas[id := Stopped(s.replicas[id])])
    case Wake(id, reading) => s.(replicas := s.replicas[id := Woken(s.replicas[id], reading)])
    case Admit(id, token) => s.(replicas := s.replicas[id := Entered(s.replicas[id], token)])
    case Claim(id, token, transport) => Claimed(s, id, token, transport)
    case Finish(id, token) => s.(replicas := s.replicas[id := Left(s.replicas[id], token)])
    case End(id, token) => s.(replicas := s.replicas[id := Ended(s.replicas[id], token)])
  }

  // -------------------------------------------------------------------- runs

  /** Each step of the run is allowed where it is taken. */
  ghost predicate Valid(c: Config, s: Fleet, run: seq<Step>)
    decreases |run|
  {
    run == [] || (Enabled(c, s, run[0]) && Valid(c, Apply(c, s, run[0]), run[1..]))
  }

  /** Where the run leads. */
  ghost function Final(c: Config, s: Fleet, run: seq<Step>): Fleet
    requires Valid(c, s, run)
    decreases |run|
  {
    if run == [] then s else Final(c, Apply(c, s, run[0]), run[1..])
  }

  /** No replica yet, and a store without a marker. */
  function Empty(clock: int): Fleet
  {
    Fleet(clock, map[], map[], [])
  }

  /** A state some run leads to, from a fleet with no replica and no marker. */
  ghost predicate Reachable(c: Config, s: Fleet)
  {
    exists clock: int, run: seq<Step> :: Valid(c, Empty(clock), run) && Final(c, Empty(clock), run) == s
  }

  // --------------------------------------------------------------- invariant

  ghost predicate ReplicaOk(c: Config, clock: int, r: Replica)
  {
    && RunnerInv(r)
    && Positive(r)
    && FromCatalogue(c.catalogue, r)
    && (forall t <- r.runs ::
          r.runs[t].slot <= clock + c.skew && Nameable(r.jobs[r.runs[t].job].job.schedule, r.runs[t].slot))
  }

  ghost predicate AttemptOk(c: Config, clock: int, a: Attempt)
    requires Sound(c)
  {
    && a.name in c.catalogue
    && Nameable(c.catalogue[a.name].schedule, a.slot)
    && a.at <= clock && a.slot - c.skew <= a.at
    && LeaseFor(c.catalogue[a.name], a.slot) == Success(a.lease)
    && a.outcome != Down
  }

  /** The claims that left a marker, run under or not. */
  predicate Marks(a: Attempt)
  {
    a.outcome == Won || a.outcome == Lost
  }

  predicate SameOccurrence(a: Attempt, b: Attempt)
  {
    a.name == b.name && a.slot == b.slot
  }

  ghost function KeyOf(c: Config, a: Attempt): string
    requires Sound(c)
  {
    if a.name in c.catalogue then KeyFor(c.catalogue[a.name], a.slot) else ""
  }

  /** Claim `j` came within the lease of an earlier marker of the very same occurrence. */
  ghost predicate Blocked(attempts: seq<Attempt>, a: Attempt)
  {
    exists b <- attempts :: Marks(b) && SameOccurrence(a, b) && a.at < b.at + b.lease
  }

  /** A live marker is some earlier claim's own, and every claim's marker stands until its lease is over. */
  ghost predicate MarkersMatch(c: Config, clock: int, markers: Markers, attempts: seq<Attempt>)
    requires Sound(c)
  {
    && (forall key <- markers | clock < markers[key] :: Owned(c, key, markers[key], attempts))
    && (forall a <- attempts | Marks(a) ::
          a.at + a.lease <= clock || (KeyOf(c, a) in markers && a.at + a.lease <= markers[KeyOf(c, a)]))
  }

  ghost predicate Owned(c: Config, key: string, expiry: int, attempts: seq<Attempt>)
    requires Sound(c)
  {
    exists a <- attempts :: Marks(a) && KeyOf(c, a) == key && a.at + a.lease == expiry
  }

  ghost predicate OutcomesFollow(attempts: seq<Attempt>)
  {
    && (forall i, j | 0 <= i < j < |attempts| :: attempts[i].at <= attempts[j].at)
    && (forall j | 0 <= j < |attempts| :: attempts[j].outcome == Refused <==> Blocked(attempts[..j], attempts[j]))
  }

  ghost predicate ClaimsOk(c: Config, clock: int, markers: Markers, attempts: seq<Attempt>)
    requires Sound(c)
  {
    && (forall a <- attempts :: AttemptOk(c, clock, a))
    && MarkersMatch(c, clock, markers, attempts)
    && OutcomesFollow(attempts)
  }

  ghost predicate Inv(c: Config, s: Fleet)
  {
    && Sound(c)
    && (forall id <- s.replicas :: ReplicaOk(c, s.clock, s.replicas[id]))
    && ClaimsOk(c, s.clock, s.markers, s.attempts)
  }

  lemma OccurrenceIsItsKey(c: Config, a: Attempt, b: Attempt)
    requires Sound(c) && a.name in c.catalogue && b.name in c.catalogue
    requires Nameable(c.catalogue[a.name].schedule, a.slot) && Nameable(c.catalogue[b.name].schedule, b.slot)
    ensures KeyOf(c, a) == KeyOf(c, b) <==> SameOccurrence(a, b)
  {
    KeyIsInjective(c.catalogue[a.name], a.slot, c.catalogue[b.name], b.slot);
    FlooringIsTheIdentity(c.catalogue[a.name], a.slot);
    FlooringIsTheIdentity(c.catalogue[b.name], b.slot);
  }

  /** The store holds a live marker for an occurrence exactly when an earlier claim of it is within its lease. */
  lemma HeldIsBlocked(c: Config, clock: int, markers: Markers, attempts: seq<Attempt>, a: Attempt)
    requires Sound(c) && ClaimsOk(c, clock, markers, attempts)
    requires a.name in c.catalogue && Nameable(c.catalogue[a.name].schedule, a.slot) && a.at == clock
    ensures Held(markers, KeyOf(c, a), clock) <==> Blocked(attempts, a)
  {
    var key := KeyOf(c, a);
    if Held(markers, key, clock) {
      assert Owned(c, key, markers[key], attempts);
      var b :| b in attempts && Marks(b) && KeyOf(c, b) == key && b.at + b.lease == markers[key];
      assert AttemptOk(c, clock, b);
      OccurrenceIsItsKey(c, a, b);
    }
    if Blocked(attempts, a) {
      var b :| b in attempts && Marks(b) && SameOccurrence(a, b) && a.at < b.at + b.lease;
      assert AttemptOk(c, clock, b);
      OccurrenceIsItsKey(c, a, b);
    }
  }

  lemma AppendKeepsOutcomes(c: Config, clock: int, attempts: seq<Attempt>, a: Attempt)
    requires Sound(c) && OutcomesFollow(attempts) && a.at == clock
    requires forall b <- attempts :: b.at <= clock
    requires a.outcome == Refused <==> Blocked(attempts, a)
    ensures OutcomesFollow(attempts + [a])
  {
    var all := attempts + [a];
    forall j | 0 <= j < |all|
      ensures all[j].outcome == Refused <==> Blocked(all[..j], all[j])
    {
      assert all[..j] == attempts[..j];
      assert attempts[..|attempts|] == attempts;
    }
    forall i, j | 0 <= i < j < |all|
      ensures all[i].at <= all[j].at
    {
      assert attempts[i] in attempts;
    }
  }

  lemma AppendKeepsMarkers(c: Config, clock: int, markers: Markers, attempts: seq<Attempt>, markers': Markers, a: Attempt)
    requires Sound(c) && MarkersMatch(c, clock, markers, attempts)
    requires a.at == clock && 0 < a.lease
    requires a.outcome == Refused ==> markers' == markers
    requires a.outcome != Refused ==> Marks(a) && !Held(markers, KeyOf(c, a), clock)
                                      && markers' == markers[KeyOf(c, a) := a.at + a.lease]
    ensures MarkersMatch(c, clock, markers', attempts + [a])
  {
    var all := attempts + [a];
    assert all[|attempts|] == a;
    forall key <- markers' | clock < markers'[key]
      ensures Owned(c, key, markers'[key], all)
    {
      if a.outcome == Refused || key != KeyOf(c, a) {
        assert Owned(c, key, markers[key], attempts);
        var b :| b in attempts && Marks(b) && KeyOf(c, b) == key && b.at + b.lease == markers[key];
        assert b in all;
      } else {
        assert a in all;
      }
    }
  }

  lemma ClaimKeeps(c: Config, s: Fleet, job: Scheduled, slot: int, transport: Transport)
    requires Inv(c, s) && job.name in c.catalogue && c.catalogue[job.name] == job
    requires Nameable(job.schedule, slot) && slot <= s.clock + c.skew
    ensures var (markers, outcome) := ClaimOf(s.markers, job, slot, s.clock, transport);
            outcome != Down ==>
              ClaimsOk(c, s.clock, markers,
                       s.attempts + [Attempt(job.name, slot, s.clock, LeaseFor(job, slot).value, outcome)])
  {
    var (markers, outcome) := ClaimOf(s.markers, job, slot, s.clock, transport);
    if outcome != Down {
      LeaseCoversTheOccurrence(job, slot);
      var a := Attempt(job.name, slot, s.clock, LeaseFor(job, slot).value, outcome);
      assert AttemptOk(c, s.clock, a);
      HeldIsBlocked(c, s.clock, s.markers, s.attempts, a);
      forall b <- s.attempts
        ensures b.at <= s.clock
      {
        assert AttemptOk(c, s.clock, b);
      }
      AppendKeepsOutcomes(c, s.clock, s.attempts, a);
      AppendKeepsMarkers(c, s.clock, s.markers, s.attempts, markers, a);
    }
  }

  /** A step that only changes one replica keeps the invariant as soon as that replica does. */
  lemma SwapKeeps(c: Config, s: Fleet, id: nat, r: Replica)
    requires Inv(c, s) && ReplicaOk(c, s.clock, r)
    ensures Inv(c, s.(replicas := s.replicas[id := r]))
  {
  }

  /** Steps that queue no run and change no declaration keep a replica in order. */
  lemma QuietStepKeeps(c: Config, clock: int, r: Replica, r': Replica)
    requires ReplicaOk(c, clock, r) && RunnerInv(r')
    requires |r'.jobs| == |r.jobs| && forall j | 0 <= j < |r.jobs| :: r'.jobs[j].job == r.jobs[j].job
    requires forall t <- r'.runs :: t in r.runs && r'.runs[t].slot == r.runs[t].slot && r'.runs[t].job == r.runs[t].job
    ensures ReplicaOk(c, clock, r')
  {
    forall a <- r'.jobs
      ensures a.job.name in c.catalogue && c.catalogue[a.job.name] == a.job
    {
      var j :| 0 <= j < |r'.jobs| && r'.jobs[j] == a;
      assert r.jobs[j] in r.jobs;
    }
  }

  lemma WalkKeepsReplica(c: Config, clock: int, r: Replica, reading: int)
    requires ReplicaOk(c, clock, r) && reading <= clock + c.skew
    ensures ReplicaOk(c, clock, Walk(r, 0, reading).replica)
  {
    var r' := Walk(r, 0, reading).replica;
    WalkKeeps(r, 0, reading);
    forall t <- r'.runs
      ensures r'.runs[t].slot <= clock + c.skew && Nameable(r'.jobs[r'.runs[t].job].job.schedule, r'.runs[t].slot)
    {
      if t in r.runs {
        assert r'.runs[t] == r.runs[t];
      }
    }
    forall a <- r'.jobs
      ensures a.job.name in c.catalogue && c.catalogue[a.job.name] == a.job
    {
      var j :| 0 <= j < |r'.jobs| && r'.jobs[j] == a;
      assert r.jobs[j] in r.jobs;
    }
  }

  lemma WakeKeeps(c: Config, clock: int, r: Replica, reading: int)
    requires ReplicaOk(c, clock, r) && reading <= clock + c.skew
    ensures ReplicaOk(c, clock, Woken(r, reading))
  {
    if r.loops != 0 && r.running {
      var turn := Walk(r, 0, reading);
      WalkKeepsReplica(c, clock, r, reading);
      if turn.crashed {
        LoopEndKeeps(c, clock, turn.replica, false, r.loops - 1);
      }
    } else if r.loops != 0 {
      LoopEndKeeps(c, clock, r, false, r.loops - 1);
    }
  }

  lemma StartStopKeeps(c: Config, clock: int, r: Replica, maxConcurrent: nat)
    requires ReplicaOk(c, clock, r)
    ensures ReplicaOk(c, clock, Started(r, maxConcurrent)) && ReplicaOk(c, clock, Stopped(r))
  {
    StartKeeps(r, maxConcurrent);
    QuietStepKeeps(c, clock, r, Started(r, maxConcurrent));
    QuietStepKeeps(c, clock, r, Stopped(r));
  }

  lemma LoopEndKeeps(c: Config, clock: int, r: Replica, running: bool, loops: nat)
    requires ReplicaOk(c, clock, r)
    ensures ReplicaOk(c, clock, r.(running := running, loops := loops))
  {
    QuietStepKeeps(c, clock, r, r.(running := running, loops := loops));
  }

  lemma RegistrationKeeps(c: Config, clock: int, r: Replica, name: string, armedAt: Option<int>)
    requires Sound(c) && ReplicaOk(c, clock, r) && name in c.catalogue
    ensures var after := Registered(r, c.catalogue[name], armedAt);
            after.Success? ==> ReplicaOk(c, clock, after.value)
  {
    RegisterKeeps(r, c.catalogue[name], armedAt);
  }

  lemma EnterBeginKeep(c: Config, clock: int, r: Replica, token: nat)
    requires ReplicaOk(c, clock, r)
    ensures CanEnter(r, token) ==> ReplicaOk(c, clock, Entered(r, token))
    ensures InPhase(r, token, Admitted) ==> ReplicaOk(c, clock, Begun(r, token))
  {
    if CanEnter(r, token) {
      EnterKeeps(r, token);
      QuietStepKeeps(c, clock, r, Entered(r, token));
    }
    if InPhase(r, token, Admitted) {
      BeginKeeps(r, token);
      QuietStepKeeps(c, clock, r, Begun(r, token));
    }
  }

  lemma LeavingKeeps(c: Config, clock: int, r: Replica, token: nat)
    requires ReplicaOk(c, clock, r) && (InPhase(r, token, Admitted) || InPhase(r, token, Running))
    ensures ReplicaOk(c, clock, Left(r, token))
  {
    LeaveKeeps(r, token);
    QuietStepKeeps(c, clock, r, Left(r, token));
  }

  lemma EndingKeeps(c: Config, clock: int, r: Replica, token: nat)
    requires ReplicaOk(c, clock, r) && InPhase(r, token, Released)
    ensures ReplicaOk(c, clock, Ended(r, token))
  {
    EndKeeps(r, token);
    QuietStepKeeps(c, clock, r, Ended(r, token));
  }

  lemma ClaimKeepsReplica(c: Config, s: Fleet, id: nat, token: nat, transport: Transport)
    requires Inv(c, s) && Enabled(c, s, Claim(id, token, transport))
    ensures ReplicaOk(c, s.clock, Claimed(s, id, token, transport).replicas[id])
  {
    EnterBeginKeep(c, s.clock, s.replicas[id], token);
    LeavingKeeps(c, s.clock, s.replicas[id], token);
  }

  lemma ClaimKeepsClaims(c: Config, s: Fleet, id: nat, token: nat, transport: Transport)
    requires Inv(c, s) && Enabled(c, s, Claim(id, token, transport))
    ensures var s' := Claimed(s, id, token, transport); ClaimsOk(c, s.clock, s'.markers, s'.attempts)
  {
    var r := s.replicas[id];
    var run := r.runs[token];
    assert r.jobs[run.job] in r.jobs;
    ClaimKeeps(c, s, r.jobs[run.job].job, run.slot, transport);
  }

  lemma ClaimStepKeeps(c: Config, s: Fleet, id: nat, token: nat, transport: Transport)
    requires Inv(c, s) && Enabled(c, s, Claim(id, token, transport))
    ensures Inv(c, Claimed(s, id, token, transport))
  {
    var s' := Claimed(s, id, token, transport);
    ClaimKeepsReplica(c, s, id, token, transport);
    SwapKeeps(c, s, id, s'.replicas[id]);
    ClaimKeepsClaims(c, s, id, token, transport);
  }

  lemma AdvanceKeeps(c: Config, s: Fleet, elapsed: nat)
    requires Inv(c, s)
    ensures Inv(c, s.(clock := s.clock + elapsed))
  {
    var later := s.clock + elapsed;
    forall a <- s.attempts
      ensures AttemptOk(c, later, a)
    {
      assert AttemptOk(c, s.clock, a);
    }
  }

  lemma StepKeeps(c: Config, s: Fleet, step: Step)
    requires Inv(c, s) && Enabled(c, s, step)
    ensures Inv(c, Apply(c, s, step))
  {
    match step
    case Advance(elapsed) => AdvanceKeeps(c, s, elapsed);
    case Boot(id) =>
      assert RunnerInv(FRESH);
      SwapKeeps(c, s, id, FRESH);
    case Register(id, name, armedAt) =>
      RegistrationKeeps(c, s.clock, s.replicas[id], name, armedAt);
      if Registered(s.replicas[id], c.catalogue[name], armedAt).Success? {
        SwapKeeps(c, s, id, Registered(s.replicas[id], c.catalogue[name], armedAt).value);
      }
    case Start(id, maxConcurrent) =>
      StartStopKeeps(c, s.clock, s.replicas[id], maxConcurrent);
      SwapKeeps(c, s, id, Started(s.replicas[id], maxConcurrent));
    case Stop(id) =>
      StartStopKeeps(c, s.clock, s.replicas[id], 0);
      SwapKeeps(c, s, id, Stopped(s.replicas[id]));
    case Wake(id, reading) =>
      WakeKeeps(c, s.clock, s.replicas[id], reading);
      SwapKeeps(c, s, id, Woken(s.replicas[id], reading));
    case Admit(id, token) =>
      EnterBeginKeep(c, s.clock, s.replicas[id], token);
      SwapKeeps(c, s, id, Entered(s.replicas[id], token));
    case Claim(id, token, transport) =>
      ClaimStepKeeps(c, s, id, token, transport);
    case Finish(id, token) =>
      LeavingKeeps(c, s.clock, s.replicas[id], token);
      SwapKeeps(c, s, id, Left(s.replicas[id], token));
    case End(id, token) =>
      EndingKeeps(c, s.clock, s.replicas[id], token);
      SwapKeeps(c, s, id, Ended(s.replicas[id], token));
  }

  lemma {:induction false} RunKeeps(c: Config, s: Fleet, run: seq<Step>)
    requires Inv(c, s) && Valid(c, s, run)
    ensures Inv(c, Final(c, s, run))
    decreases |run|
  {
    if run != [] {
      StepKeeps(c, s, run[0]);
      RunKeeps(c, Apply(c, s, run[0]), run[1..]);
    }
  }

  lemma ReachableIsOk(c: Config, s: Fleet)
    requires Sound(c) && Reachable(c, s)
    ensures Inv(c, s)
  {
    var clock: int, run: seq<Step> :| Valid(c, Empty(clock), run) && Final(c, Empty(clock), run) == s;
    RunKeeps(c, Empty(clock), run);
  }

  // ---------------------------------------------------------------- theorems

  /**
   * In every run of any number of replicas, each job of each replica has at most one run between `beginRun`
   * and `endRun`, says it runs exactly while it has one, and a finishing run always frees its own token.
   */
  lemma OneRunPerJobEverywhere(c: Config, s: Fleet, id: nat, i: nat, token: nat)
    requires Sound(c) && Reachable(c, s) && id in s.replicas && i < |s.replicas[id].jobs|
    ensures var r := s.replicas[id];
            && (r.jobs[i].token != 0 <==> exists t <- r.runs :: r.runs[t].job == i)
            && (forall t <- r.runs, u <- r.runs | r.runs[t].job == i && r.runs[u].job == i :: t == u)
            && (token in r.runs ==> r.runs[token].job < |r.jobs| && r.jobs[r.runs[token].job].token == token)
  {
    ReachableIsOk(c, s);
    OneRunPerJob(s.replicas[id], i);
  }

  /** A gate never lets more runs through at once than the limit it was started with. */
  lemma GatesHoldEverywhere(c: Config, s: Fleet, id: nat, g: nat)
    requires Sound(c) && Reachable(c, s) && id in s.replicas && g < |s.replicas[id].gates|
    ensures var r := s.replicas[id];
            |set t | t in r.runs && r.runs[t].gate == g && r.runs[t].phase in {Admitted, Running}| <= r.gates[g].limit
  {
    ReachableIsOk(c, s);
    var r := s.replicas[id];
    assert r.gates[g].held == set t | t in r.runs && r.runs[t].gate == g && r.runs[t].phase in {Admitted, Running};
  }

  /** Two claims that left a marker for one occurrence are at least its lease apart on the store's clock. */
  lemma ClaimsAreALeaseApart(c: Config, s: Fleet, i: nat, j: nat)
    requires Sound(c) && Reachable(c, s) && i < j < |s.attempts|
    requires Marks(s.attempts[i]) && Marks(s.attempts[j]) && SameOccurrence(s.attempts[i], s.attempts[j])
    ensures s.attempts[i].at + s.attempts[i].lease <= s.attempts[j].at
  {
    ReachableIsOk(c, s);
    assert s.attempts[..j][i] == s.attempts[i];
    assert s.attempts[i] in s.attempts[..j];
    assert !Blocked(s.attempts[..j], s.attempts[j]);
  }

  /** A claim that started the body of one occurrence. */
  predicate Starts(a: Attempt, name: string, slot: int)
  {
    a.outcome == Won && a.name == name && a.slot == slot
  }

  /**
   * So an occurrence whose claims all land by `slot + delay`, with skew and delay together shorter than the
   * lease, starts its body at most once in the whole fleet. That none lands before `slot - skew` is proved,
   * not asked for.
   */
  lemma OneBodyPerOccurrence(c: Config, s: Fleet, name: string, slot: int, delay: nat, i: nat, j: nat)
    requires Sound(c) && Reachable(c, s)
    requires name in c.catalogue && LeaseFor(c.catalogue[name], slot).Success?
    requires c.skew + delay < LeaseFor(c.catalogue[name], slot).value
    requires LandsWithin(s.attempts, name, slot, delay)
    requires i < |s.attempts| && Starts(s.attempts[i], name, slot)
    requires j < |s.attempts| && Starts(s.attempts[j], name, slot)
    ensures i == j
  {
    ReachableIsOk(c, s);
    assert AttemptOk(c, s.clock, s.attempts[i]) && AttemptOk(c, s.clock, s.attempts[j]);
    if i < j {
      ClaimsAreALeaseApart(c, s, i, j);
    } else if j < i {
      ClaimsAreALeaseApart(c, s, j, i);
    }
  }

  /** A claim is refused exactly when an earlier marker of that very occurrence is younger than its lease. */
  lemma RefusedOnlyByItsOwnMarker(c: Config, s: Fleet, j: nat)
    requires Sound(c) && Reachable(c, s) && j < |s.attempts|
    ensures s.attempts[j].outcome == Refused <==> Blocked(s.attempts[..j], s.attempts[j])
  {
    ReachableIsOk(c, s);
  }

  /** `first` is where the history first claims its occurrence. */
  predicate FirstClaim(attempts: seq<Attempt>, first: nat)
  {
    first < |attempts| && forall k | 0 <= k < first :: !SameOccurrence(attempts[k], attempts[first])
  }

  /** The claims of the occurrence of `first` that left a marker, as positions in the history. */
  function MarkersOf(attempts: seq<Attempt>, first: nat): set<nat>
    requires first < |attempts|
  {
    set i: nat | i < |attempts| && SameOccurrence(attempts[i], attempts[first]) && Marks(attempts[i])
  }

  /**
   * An occurrence is marked once and no more precisely when every claim of it lands within the lease of its
   * first claim. Markers are counted here, those left by a lost answer included, and not the bodies started.
   */
  lemma MarkedOnceExactly(c: Config, s: Fleet, first: nat)
    requires Sound(c) && Reachable(c, s) && FirstClaim(s.attempts, first)
    ensures var a := s.attempts[first];
            MarkersOf(s.attempts, first) == {first}
            <==> (forall j | 0 <= j < |s.attempts| && SameOccurrence(s.attempts[j], a) :: s.attempts[j].at < a.at + a.lease)
  {
    ReachableIsOk(c, s);
    var a := s.attempts[first];
    assert AttemptOk(c, s.clock, a);
    LeaseCoversTheOccurrence(c.catalogue[a.name], a.slot);
    assert Marks(a) by {
      assert !Blocked(s.attempts[..first], a);
    }
    forall k: nat | k in MarkersOf(s.attempts, first) && k != first
      ensures a.at + a.lease <= s.attempts[k].at
    {
      ClaimsAreALeaseApart(c, s, first, k);
    }
    if MarkersOf(s.attempts, first) == {first} {
      forall j | 0 <= j < |s.attempts| && SameOccurrence(s.attempts[j], a)
        ensures s.attempts[j].at < a.at + a.lease
      {
        LaterClaimIsWithin(c, s, first, j);
      }
    }
  }

  lemma LaterClaimIsWithin(c: Config, s: Fleet, first: nat, j: nat)
    requires Inv(c, s) && FirstClaim(s.attempts, first) && j < |s.attempts|
    requires SameOccurrence(s.attempts[j], s.attempts[first])
    requires MarkersOf(s.attempts, first) == {first} && 0 < s.attempts[first].lease
    ensures s.attempts[j].at < s.attempts[first].at + s.attempts[first].lease
  {
    var b := s.attempts[j];
    if j != first {
      assert j !in MarkersOf(s.attempts, first);
      assert AttemptOk(c, s.clock, b);
      assert Blocked(s.attempts[..j], b);
      var k := BlockedBy(s.attempts, j);
      assert k in MarkersOf(s.attempts, first);
    }
  }

  /** Which earlier claim a blocked one met. */
  lemma BlockedBy(attempts: seq<Attempt>, j: nat) returns (k: nat)
    requires j < |attempts| && Blocked(attempts[..j], attempts[j])
    ensures k < j && Marks(attempts[k]) && SameOccurrence(attempts[j], attempts[k])
    ensures attempts[j].at < attempts[k].at + attempts[k].lease
  {
    var m :| m in attempts[..j] && Marks(m) && SameOccurrence(attempts[j], m) && attempts[j].at < m.at + m.lease;
    k :| 0 <= k < j && attempts[..j][k] == m;
  }

  /**
   * Every instant of a job's schedule, between the first occurrence the job of any replica took and its pending one,
   * was taken exactly once or skipped as already past, in every run. For an interval those are its grid points.
   */
  lemma EveryOccurrenceIsAccountedFor(c: Config, s: Fleet, id: nat, i: nat, g: int)
    requires Sound(c) && Reachable(c, s) && id in s.replicas && i < |s.replicas[id].jobs|
    requires var a := s.replicas[id].jobs[i];
             && Declared(a.job.schedule) && Steady(a.job.schedule) && a.taken != [] && a.next.Some?
             && Names(a.job.schedule, g) && a.taken[0].slot <= g < a.next.value
    ensures var a := s.replicas[id].jobs[i];
            && (exists k :: TakenAs(a.taken, g, k)) != (exists k :: SkippedAfter(a.next.value, a.taken, g, k))
            && (forall k, l | TakenAs(a.taken, g, k) && TakenAs(a.taken, g, l) :: k == l)
  {
    ReachableIsOk(c, s);
    assert Chained(s.replicas[id].jobs[i]);
    EveryOccurrenceIsTakenOrPast(s.replicas[id].jobs[i], g);
  }

  // ----------------------------------------------------- one claim for a run

  /** Run `token` of a replica has made its claim: it is past its gate's claim, or gone. */
  predicate HasClaimed(r: Replica, token: nat)
  {
    token <= r.counter && (token in r.runs ==> r.runs[token].phase in {Running, Released})
  }

  lemma WakeKeepsClaimed(r: Replica, reading: int, token: nat)
    requires RunnerInv(r) && Positive(r) && HasClaimed(r, token)
    ensures HasClaimed(Woken(r, reading), token)
  {
    WalkKeeps(r, 0, reading);
    FreshRunsAreNewer(r, 0, reading);
  }

  lemma RegisterKeepsClaimed(r: Replica, job: Scheduled, clock: Option<int>, token: nat)
    requires Declared(job.schedule) && HasClaimed(r, token)
    ensures Registered(r, job, clock).Success? ==> HasClaimed(Registered(r, job, clock).value, token)
  {
  }

  lemma RunMovesKeepClaimed(r: Replica, moved: nat, token: nat)
    requires HasClaimed(r, token)
    ensures CanEnter(r, moved) ==> HasClaimed(Entered(r, moved), token)
    ensures InPhase(r, moved, Admitted) ==> HasClaimed(Begun(r, moved), token)
    ensures InPhase(r, moved, Admitted) || InPhase(r, moved, Running) ==> HasClaimed(Left(r, moved), token)
    ensures InPhase(r, moved, Released) ==> HasClaimed(Ended(r, moved), token)
  {
  }

  lemma StepKeepsClaimed(c: Config, s: Fleet, step: Step, id: nat, token: nat)
    requires Inv(c, s) && Enabled(c, s, step) && step != Boot(id)
    requires id in s.replicas && HasClaimed(s.replicas[id], token)
    ensures id in Apply(c, s, step).replicas && HasClaimed(Apply(c, s, step).replicas[id], token)
  {
    var r := s.replicas[id];
    assert ReplicaOk(c, s.clock, r);
    match step
    case Wake(_, reading) => WakeKeepsClaimed(r, reading, token);
    case Register(_, name, clock) => RegisterKeepsClaimed(r, c.catalogue[name], clock, token);
    case Admit(_, moved) => RunMovesKeepClaimed(r, moved, token);
    case Claim(_, moved, _) => RunMovesKeepClaimed(r, moved, token);
    case Finish(_, moved) => RunMovesKeepClaimed(r, moved, token);
    case End(_, moved) => RunMovesKeepClaimed(r, moved, token);
    case _ =>
  }

  /** The runs a walk queues come under tokens never used before. */
  lemma {:induction false} FreshRunsAreNewer(r: Replica, k: nat, now: int)
    requires RunnerInv(r) && Positive(r) && k <= |r.jobs|
    ensures forall t <- Walk(r, k, now).replica.runs | t !in r.runs :: r.counter < t
    decreases |r.jobs| - k
  {
    if k < |r.jobs| {
      var turn := Visited(r, k, now);
      VisitKeeps(r, k, now);
      if !turn.crashed {
        DeclaredIsPositive(turn.replica);
        FreshRunsAreNewer(turn.replica, k + 1, now);
      }
    }
  }

  /** Process `id` is not started anew in a run of the fleet. */
  predicate NeverBoots(run: seq<Step>, id: nat)
  {
    run == [] || (run[0] != Boot(id) && NeverBoots(run[1..], id))
  }

  /** Process `id` is up, and its run `token` has made its claim. */
  predicate ClaimMade(s: Fleet, id: nat, token: nat)
  {
    id in s.replicas && HasClaimed(s.replicas[id], token)
  }

  lemma ClaimedStep(c: Config, s: Fleet, step: Step, id: nat, token: nat)
    requires Inv(c, s) && Enabled(c, s, step) && step != Boot(id) && ClaimMade(s, id, token)
    ensures Inv(c, Apply(c, s, step)) && ClaimMade(Apply(c, s, step), id, token)
  {
    StepKeeps(c, s, step);
    StepKeepsClaimed(c, s, step, id, token);
  }

  lemma {:induction false} RunKeepsClaimed(c: Config, s: Fleet, run: seq<Step>, id: nat, token: nat)
    requires Inv(c, s) && Valid(c, s, run) && NeverBoots(run, id) && ClaimMade(s, id, token)
    ensures ClaimMade(Final(c, s, run), id, token)
    decreases |run|
  {
    if run != [] {
      ClaimedStep(c, s, run[0], id, token);
      RunKeepsClaimed(c, Apply(c, s, run[0]), run[1..], id, token);
    }
  }

  lemma ClaimIsMade(c: Config, s: Fleet, claim: Step)
    requires Inv(c, s) && claim.Claim? && Enabled(c, s, claim)
    ensures ClaimMade(Apply(c, s, claim), claim.id, claim.token)
  {
    assert RunnerInv(s.replicas[claim.id]);
  }

  /**
   * A run whose claim was delivered and met no live marker has its body running; any other has left its gate, its body
   * never begun.
   */
  lemma ClaimDecidesTheRun(c: Config, s: Fleet, claim: Step)
    requires Inv(c, s) && claim.Claim? && Enabled(c, s, claim)
    ensures var r, r' := s.replicas[claim.id], Apply(c, s, claim).replicas[claim.id];
            var job, slot := r.jobs[r.runs[claim.token].job].job, r.runs[claim.token].slot;
            var won := claim.transport == Delivered && LeaseFor(job, slot).Success? && !Held(s.markers, KeyFor(job, slot), s.clock);
            && claim.token in r'.runs
            && r'.runs[claim.token].phase == (if won then Running else Released)
            && (forall t <- r.runs | t != claim.token :: t in r'.runs && r'.runs[t] == r.runs[t])
  {
  }

  /**
   * A run asks the store once: won or refused, unreachable or lost, the claim of a fired occurrence is never made
   * again by the process that fired it, whatever happens in between but that process starting anew.
   */
  lemma OneClaimPerRun(c: Config, s: Fleet, claim: Step, run: seq<Step>, again: Step)
    requires Sound(c) && Reachable(c, s) && claim.Claim? && Enabled(c, s, claim)
    requires Valid(c, Apply(c, s, claim), run) && NeverBoots(run, claim.id)
    requires again.Claim? && again.id == claim.id && again.token == claim.token
    ensures !Enabled(c, Final(c, Apply(c, s, claim), run), again)
  {
    ReachableIsOk(c, s);
    StepKeeps(c, s, claim);
    ClaimIsMade(c, s, claim);
    RunKeepsClaimed(c, Apply(c, s, claim), run, claim.id, claim.token);
  }

  // ------------------------------------------- where at-most-once gives way

  lemma {:induction false} LastStep(c: Config, s: Fleet, run: seq<Step>, step: Step)
    requires Valid(c, s, run) && Enabled(c, Final(c, s, run), step)
    ensures Valid(c, s, run + [step]) && Final(c, s, run + [step]) == Apply(c, Final(c, s, run), step)
    decreases |run|
  {
    if run == [] {
      assert (run + [step])[1..] == [];
    } else {
      assert (run + [step])[1..] == run[1..] + [step];
      LastStep(c, Apply(c, s, run[0]), run[1..], step);
    }
  }

  lemma Reach(c: Config, s: Fleet, step: Step)
    requires Reachable(c, s) && Enabled(c, s, step)
    ensures Reachable(c, Apply(c, s, step))
  {
    var clock: int, run: seq<Step> :| Valid(c, Empty(clock), run) && Final(c, Empty(clock), run) == s;
    LastStep(c, Empty(clock), run, step);
  }

  /** A replica that armed `job` for `slot`, started, took it on time and now stands at `next`. */
  function Taker(job: Scheduled, slot: int, next: int): Replica
  {
    Replica([Armed(job, Some(next), 1, [Taken(slot, slot)])], 1, true, 1,
            [Gate(DEFAULT_MAX_CONCURRENT, {}), Gate(1, {})], map[1 := Run(0, slot, 1, Queued)])
  }

  /** `slot` is where a registration at `from` arms the job, and `next` where taking it on time leaves it. */
  ghost predicate Armable(job: Scheduled, from: int, slot: int, next: int)
  {
    && Declared(job.schedule)
    && NextRun(job.schedule, from) == Success(slot)
    && AfterSlot(job.schedule, slot, slot) == Success(next)
  }

  /** The three steps that take a fresh replica there. */
  lemma TakerIsReached(job: Scheduled, from: int, slot: int, next: int)
    requires Armable(job, from, slot, next)
    ensures var r := Registered(FRESH, job, Some(from));
            && r.Success?
            && Positive(Started(r.value, 1))
            && Woken(Started(r.value, 1), slot) == Taker(job, slot, next)
  {
    var r := Started(Registered(FRESH, job, Some(from)).value, 1);
    assert r.jobs == [Armed(job, Some(slot), 0, [])];
    var look := TakeIfDue(r.jobs[0], slot);
    assert look == Look(Armed(job, Some(next), 0, [Taken(slot, slot)]), Some(slot));
    var r1 := r.(jobs := r.jobs[0 := look.armed]);
    assert r1.jobs == [look.armed];
    assert Fired(r1, 0, slot) == Taker(job, slot, next);
    assert Visited(r, 0, slot) == Turn(Taker(job, slot, next), false);
    assert Walk(Taker(job, slot, next), 1, slot) == Turn(Taker(job, slot, next), false);
  }

  /** Two replicas in one state, over a store nobody claimed anything from. */
  function Pair(clock: int, r: Replica): Fleet
  {
    Fleet(clock, map[], map[0 := r, 1 := r], [])
  }

  lemma PairMoves(c: Config, clock: int, r: Replica, r': Replica, first: Step, second: Step)
    requires Reachable(c, Pair(clock, r))
    requires Enabled(c, Pair(clock, r), first)
    requires var mid := Pair(clock, r).(replicas := map[0 := r', 1 := r]);
             && Apply(c, Pair(clock, r), first) == mid
             && Enabled(c, mid, second)
             && Apply(c, mid, second) == mid.(replicas := mid.replicas[1 := r'])
    ensures Reachable(c, Pair(clock, r'))
  {
    var mid := Pair(clock, r).(replicas := map[0 := r', 1 := r]);
    Reach(c, Pair(clock, r), first);
    Reach(c, mid, second);
    assert mid.(replicas := mid.replicas[1 := r']) == Pair(clock, r');
  }

  lemma PairStarts(c: Config, name: string, clock: int, from: int)
    requires Sound(c) && name in c.catalogue && NearBy(from, clock, c.skew)
    requires Registered(FRESH, c.catalogue[name], Some(from)).Success?
    ensures Reachable(c, Pair(clock, Started(Registered(FRESH, c.catalogue[name], Some(from)).value, 1)))
  {
    var s := Empty(clock);
    assert Valid(c, s, []) && Final(c, s, []) == s;
    Reach(c, s, Boot(0));
    var s1 := Apply(c, s, Boot(0));
    Reach(c, s1, Boot(1));
    assert Apply(c, s1, Boot(1)) == Pair(clock, FRESH);
    var armed := Registered(FRESH, c.catalogue[name], Some(from)).value;
    PairMoves(c, clock, FRESH, armed, Register(0, name, Some(from)), Register(1, name, Some(from)));
    PairMoves(c, clock, armed, Started(armed, 1), Start(0, 1), Start(1, 1));
  }

  lemma PairWakes(c: Config, clock: int, r: Replica, reading: int)
    requires Reachable(c, Pair(clock, r)) && NearBy(reading, clock, c.skew) && r.gates != [] && Positive(r)
    ensures Reachable(c, Pair(clock, Woken(r, reading)))
  {
    PairMoves(c, clock, r, Woken(r, reading), Wake(0, reading), Wake(1, reading));
  }

  lemma PairEnters(c: Config, clock: int, r: Replica, token: nat)
    requires Reachable(c, Pair(clock, r)) && CanEnter(r, token)
    ensures Reachable(c, Pair(clock, Entered(r, token)))
  {
    PairMoves(c, clock, r, Entered(r, token), Admit(0, token), Admit(1, token));
  }

  lemma PairWaits(c: Config, clock: int, r: Replica, elapsed: nat)
    requires Reachable(c, Pair(clock, r))
    ensures Reachable(c, Pair(clock + elapsed, r))
  {
    Reach(c, Pair(clock, r), Advance(elapsed));
    assert Apply(c, Pair(clock, r), Advance(elapsed)) == Pair(clock + elapsed, r);
  }

  /** Both replicas take the slot by clocks that run `ahead` of the store's, and stand inside their gates. */
  lemma PairGetsInside(c: Config, name: string, from: int, slot: int, next: int, ahead: nat)
    requires Sound(c) && name in c.catalogue && Armable(c.catalogue[name], from, slot, next) && ahead <= c.skew
    ensures var r := Taker(c.catalogue[name], slot, next);
            CanEnter(r, 1) && Reachable(c, Pair(slot - ahead, Entered(r, 1)))
  {
    var job := c.catalogue[name];
    TakerIsReached(job, from, slot, next);
    NextRunIsAhead(job.schedule, from);
    PairStarts(c, name, from - ahead, from);
    var started := Started(Registered(FRESH, job, Some(from)).value, 1);
    PairWaits(c, from - ahead, started, slot - from);
    PairWakes(c, slot - ahead, started, slot);
    PairEnters(c, slot - ahead, Taker(job, slot, next), 1);
  }

  /** Run 1 of a replica is inside its gate, about to claim `slot` of `job`. */
  ghost predicate AboutToClaim(r: Replica, job: Scheduled, slot: int)
  {
    && InPhase(r, 1, Admitted) && Positive(r)
    && r.jobs[r.runs[1].job].job == job && r.runs[1].slot == slot
  }

  /** A claim that meets no live marker leaves its own, and is on record as won. */
  lemma ClaimIsWon(c: Config, s: Fleet, id: nat, job: Scheduled, slot: int)
    requires id in s.replicas && AboutToClaim(s.replicas[id], job, slot)
    requires LeaseFor(job, slot).Success? && !Held(s.markers, KeyFor(job, slot), s.clock)
    ensures Enabled(c, s, Claim(id, 1, Delivered))
    ensures var s' := Apply(c, s, Claim(id, 1, Delivered)); var lease := LeaseFor(job, slot).value;
            && s'.clock == s.clock
            && s'.markers == s.markers[KeyFor(job, slot) := s.clock + lease]
            && s'.attempts == s.attempts + [Attempt(job.name, slot, s.clock, lease, Won)]
            && forall other <- s.replicas | other != id :: other in s'.replicas && s'.replicas[other] == s.replicas[other]
  {
  }

  lemma PairClaims(c: Config, clock: int, r: Replica, job: Scheduled, slot: int) returns (s: Fleet)
    requires Reachable(c, Pair(clock, r)) && AboutToClaim(r, job, slot)
    requires LeaseFor(job, slot).Success? && 0 < LeaseFor(job, slot).value
    ensures var lease := LeaseFor(job, slot).value;
            && Reachable(c, s)
            && s.attempts == [Attempt(job.name, slot, clock, lease, Won), Attempt(job.name, slot, clock + lease, lease, Won)]
  {
    var lease := LeaseFor(job, slot).value;
    var s0 := Pair(clock, r);
    ClaimIsWon(c, s0, 0, job, slot);
    Reach(c, s0, Claim(0, 1, Delivered));
    var s1 := Apply(c, s0, Claim(0, 1, Delivered));
    Reach(c, s1, Advance(lease));
    var s2 := s1.(clock := s1.clock + lease);
    ClaimIsWon(c, s2, 1, job, slot);
    Reach(c, s2, Claim(1, 1, Delivered));
    s := Apply(c, s2, Claim(1, 1, Delivered));
  }

  /**
   * Beyond its lease an occurrence is run again: for every job, and every instant its schedule names, there is a run
   * in which two replicas whose clocks run `ahead` of the store's start its body, the second one lease later.
   */
  lemma AStallPastTheLeaseRunsTwice(c: Config, name: string, from: int, slot: int, next: int, ahead: nat) returns (s: Fleet)
    requires Sound(c) && name in c.catalogue && Armable(c.catalogue[name], from, slot, next) && ahead <= c.skew
    ensures Reachable(c, s) && |s.attempts| == 2
    ensures Starts(s.attempts[0], name, slot) && Starts(s.attempts[1], name, slot)
    ensures s.attempts[0].at == slot - ahead <= s.attempts[1].at
    ensures s.attempts[1].at == slot - ahead + LeaseFor(c.catalogue[name], slot).value
  {
    var job := c.catalogue[name];
    PairGetsInside(c, name, from, slot, next, ahead);
    LeaseCoversTheOccurrence(job, slot);
    s := PairClaims(c, slot - ahead, Entered(Taker(job, slot, next), 1), job, slot);
  }

  // --------------------------------------------- one body, exactly when

  /** No claim of the occurrence reaches the store later than `delay` after its instant. */
  predicate LandsWithin(attempts: seq<Attempt>, name: string, slot: int, delay: nat)
  {
    forall a <- attempts | a.name == name && a.slot == slot :: a.at <= slot + delay
  }

  /** The occurrence starts its body once at most. */
  predicate StartsOnce(attempts: seq<Attempt>, name: string, slot: int)
  {
    forall i: nat, j: nat | i < |attempts| && j < |attempts| ::
      Starts(attempts[i], name, slot) && Starts(attempts[j], name, slot) ==> i == j
  }

  /** In no run whose claims of the occurrence land within `delay` does its body start twice. */
  ghost predicate OneBodyWithin(c: Config, name: string, slot: int, delay: nat)
  {
    forall s | Reachable(c, s) && LandsWithin(s.attempts, name, slot, delay) :: StartsOnce(s.attempts, name, slot)
  }

  /**
   * The exact condition, for every schedule and every instant it names with another to follow: claims that land
   * within `delay` of that instant start the body once at most in every run of the fleet if and only if the skew
   * between the clocks and that delay together stay below the lease.
   */
  lemma OneBodyIff(c: Config, name: string, from: int, slot: int, next: int, delay: nat)
    requires Sound(c) && name in c.catalogue && Armable(c.catalogue[name], from, slot, next)
    ensures OneBodyWithin(c, name, slot, delay) <==> c.skew + delay < LeaseFor(c.catalogue[name], slot).value
  {
    if c.skew + delay < LeaseFor(c.catalogue[name], slot).value {
      forall s | Reachable(c, s) && LandsWithin(s.attempts, name, slot, delay)
        ensures StartsOnce(s.attempts, name, slot)
      {
        UnderTheLeaseOneStarts(c, s, name, slot, delay);
      }
    } else {
      PastTheLeaseTwoStart(c, name, from, slot, next, delay);
    }
  }

  lemma PastTheLeaseTwoStart(c: Config, name: string, from: int, slot: int, next: int, delay: nat)
    requires Sound(c) && name in c.catalogue && Armable(c.catalogue[name], from, slot, next)
    requires LeaseFor(c.catalogue[name], slot).value <= c.skew + delay
    ensures !OneBodyWithin(c, name, slot, delay)
  {
    var s := AStallPastTheLeaseRunsTwice(c, name, from, slot, next, c.skew);
    TwoStarts(s.attempts, name, slot, delay);
  }

  lemma UnderTheLeaseOneStarts(c: Config, s: Fleet, name: string, slot: int, delay: nat)
    requires Sound(c) && Reachable(c, s) && LandsWithin(s.attempts, name, slot, delay)
    requires name in c.catalogue && LeaseFor(c.catalogue[name], slot).Success?
    requires c.skew + delay < LeaseFor(c.catalogue[name], slot).value
    ensures StartsOnce(s.attempts, name, slot)
  {
    forall i: nat, j: nat | i < |s.attempts| && j < |s.attempts|
                            && Starts(s.attempts[i], name, slot) && Starts(s.attempts[j], name, slot)
      ensures i == j
    {
      OneBodyPerOccurrence(c, s, name, slot, delay, i, j);
    }
  }

  lemma TwoStarts(attempts: seq<Attempt>, name: string, slot: int, delay: nat)
    requires |attempts| == 2 && Starts(attempts[0], name, slot) && Starts(attempts[1], name, slot)
    requires attempts[0].at <= attempts[1].at <= slot + delay
    ensures LandsWithin(attempts, name, slot, delay) && !StartsOnce(attempts, name, slot)
  {
    var i: nat, j: nat := 0, 1;
    assert Starts(attempts[i], name, slot) && Starts(attempts[j], name, slot);
  }

  /** For an interval job every point of the grid is such an instant, and the lease its period or its timeout. */
  lemma OneBodyIffOnTheGrid(c: Config, name: string, slot: int, delay: nat)
    requires Sound(c) && name in c.catalogue && c.catalogue[name].schedule.Interval?
    requires slot % c.catalogue[name].schedule.every == 0
    ensures OneBodyWithin(c, name, slot, delay)
       <==> c.skew + delay < Max(c.catalogue[name].schedule.every, c.catalogue[name].timeout)
  {
    var every := c.catalogue[name].schedule.every;
    NextRunIsTheNextGridPoint(every, slot - every, slot);
    LeaseCoversTheOccurrence(c.catalogue[name], slot);
    OneBodyIff(c, name, slot - every, slot, AfterSlot(Interval(every), slot, slot).value, delay);
  }
}
