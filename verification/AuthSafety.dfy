/** What every run of the one-time-code challenge keeps, and what follows for one token and for one session. */
module AuthSafety {
  import opened Results
  import opened AuthChallenge

  // --------------------------------------------------------------- invariant

  /** Whether a token lasts no longer than the counter of its attempts. */
  predicate Short(known: Issued)
  {
    known.exp <= known.at + COUNTER_TTL
  }

  ghost predicate StoreOk(w: World)
  {
    && (forall t <- w.rows :: t in w.issued && w.rows[t] == w.issued[t].exp)
    && (forall t <- w.issued :: Trim(t) == t && w.issued[t].at <= w.now
                                && w.issued[t].exp <= w.issued[t].at + TtlOf(w.issued[t].purpose))
    && (forall k <- w.counters | k.token in w.issued && w.counters[k].until.Some? ::
          w.issued[k.token].at + COUNTER_TTL <= w.counters[k].until.value)
  }

  /** The token `c` presents is for the exchange it is presented to, if it was ever issued. */
  predicate Meant(w: World, c: Call)
  {
    var t := Trim(c.caller.token);
    t in w.issued ==> w.issued[t].role == c.caller.role && w.issued[t].purpose == c.caller.purpose
  }

  predicate Waiting(c: Call)
  {
    c.stage == Counting || c.stage == Expiring || c.stage == Limiting || c.stage == Looking
  }

  predicate PastItsRecord(c: Call)
  {
    || c.stage == Routing || c.stage == Redeeming || c.stage == Revoking
    || c.stage == Issuing || c.stage == Replacing || c.stage == Writing
  }

  /** Which exchange each stage belongs to, and what a call has not got yet at the early ones. */
  predicate ShapeOk(c: Call)
  {
    KindOk(c) && EarlyOk(c)
  }

  predicate KindOk(c: Call)
  {
    && (c.stage == Checking || c.stage == Revoking ==> c.caller.kind == Verify)
    && (c.stage == Issuing || c.stage == Replacing ==> c.caller.kind == Resend)
    && (c.stage == Writing ==> c.caller.kind == Complete)
    && (c.stage == Redeeming ==> c.caller.kind != Resend)
    && (c.stage == Routing ==> c.caller.kind != Verify)
  }

  predicate EarlyOk(c: Call)
  {
    && (c.stage == Opening || c.stage == Counting ==> c.attempt == 0)
    && (c.stage == Opening || Waiting(c) || c.stage == Spending ==> !c.looked)
  }

  /** What a call has found of its record at each stage. */
  predicate LookOk(c: Call)
  {
    && (c.checked || c.stage == Checking ==> c.looked && c.caller.kind == Verify)
    && (PastItsRecord(c) ==> c.looked)
    && (c.taking.consumed.Some? ==> c.looked)
  }

  /** Which numbers a call can hold at each stage. */
  predicate RangeOk(c: Call)
  {
    && (c.stage == Expiring ==> c.attempt == 1)
    && (c.caller.kind != Complete && (c.stage == Limiting || c.stage == Looking || c.looked) ==>
          1 <= c.attempt <= ATTEMPTS_PER_CHALLENGE)
  }

  /** What holds of the record a call found, and of the counter that numbered it. */
  predicate FoundOk(w: World, c: Call)
  {
    && (c.looked ==> RecordOf(c) == Trim(c.caller.token) && RecordOf(c) in w.issued)
    && (Waiting(c) || c.looked ==> Meant(w, c))
    && (c.attempt > 0 && InForce(w, c) ==> CounterLive(w, KeyOf(c)) && c.attempt <= w.counters[KeyOf(c)].count)
  }

  /** Whether the token `c` presents is a short one, still unexpired. */
  predicate InForce(w: World, c: Call)
  {
    var t := Trim(c.caller.token);
    t in w.issued && Short(w.issued[t]) && w.now < w.issued[t].exp
  }

  /** What holds of the session a call had minted. */
  predicate SessionOk(c: Call)
  {
    && (c.session.minted == Session ==> c.stage == Redeeming || c.stage == Revoking || c.stage == Answered || c.stage == Threw)
    && (c.session.minted != Nothing ==> c.caller.kind == Verify && c.checked)
    && (c.caller.kind == Verify && c.stage == Redeeming ==> c.session.minted == Session)
    && (c.stage == Revoking ==> c.session.minted == Session)
    && (c.session.returned || c.session.revoked ==> c.session.minted == Session && c.stage == Answered)
    && (c.session.minted == Session && c.stage == Answered ==> c.session.returned != c.session.revoked)
  }

  /** A call that returned a session, or wrote, took its token first. */
  predicate TakenOk(c: Call)
  {
    c.session.returned || c.taking.wrote || c.stage == Writing ==> c.taking.consumed == Some(true)
  }

  /** A token that was taken, or spent, is not in the table. */
  predicate GoneOk(w: World, c: Call)
  {
    && (c.taking.consumed == Some(true) ==> RecordOf(c) !in w.rows)
    && (c.taking.spent ==> Trim(c.caller.token) !in w.rows)
  }

  predicate CallOk(w: World, c: Call)
  {
    && ShapeOk(c) && LookOk(c) && RangeOk(c) && SessionOk(c) && TakenOk(c)
    && FoundOk(w, c) && GoneOk(w, c)
  }

  /** Whether two calls were numbered by one counter, on a short token, before it can have lapsed. */
  predicate SameCount(w: World, c: Call, d: Call)
  {
    && KeyOf(c) == KeyOf(d) && c.attempt > 0 && d.attempt > 0
    && Trim(c.caller.token) in w.issued && Short(w.issued[Trim(c.caller.token)])
    && (InForce(w, c) || (c.looked && d.looked))
  }

  /** Two calls of one exchange on one short token are numbered apart, and no two calls redeem one token. */
  predicate PairOk(w: World, c: Call, d: Call)
  {
    && (SameCount(w, c, d) ==> c.attempt != d.attempt)
    && (c.taking.consumed == Some(true) && d.taking.consumed == Some(true) ==> RecordOf(c) != RecordOf(d))
  }

  ghost predicate Inv(w: World)
  {
    && StoreOk(w)
    && (forall id <- w.calls :: CallOk(w, w.calls[id]))
    && (forall i, j | i in w.calls && j in w.calls && i != j :: PairOk(w, w.calls[i], w.calls[j]))
  }

  // ------------------------------------------------------------------- frame

  /** Whether `token` is known in `w'` as in `w`, and its record is there only if it was. */
  predicate Stands(w: World, w': World, token: string)
  {
    && (token in w'.issued <==> token in w.issued)
    && (token in w.issued ==> w'.issued[token] == w.issued[token])
    && (token in w'.rows ==> token in w.rows)
  }

  /** Whether what `c` presents means the same, and no more lives, in `w'` than in `w`. */
  predicate Onward(w: World, w': World, c: Call)
  {
    && w.now <= w'.now
    && Stands(w, w', RecordOf(c)) && Stands(w, w', Trim(c.caller.token))
    && (InForce(w', c) && CounterLive(w, KeyOf(c)) ==>
          CounterLive(w', KeyOf(c)) && w.counters[KeyOf(c)].count <= w'.counters[KeyOf(c)].count)
  }

  lemma CallStays(w: World, w': World, c: Call)
    requires CallOk(w, c) && Onward(w, w', c)
    ensures CallOk(w', c)
  {
  }

  lemma PairStays(w: World, w': World, c: Call, d: Call)
    requires PairOk(w, c, d) && Onward(w, w', c) && Onward(w, w', d)
    ensures PairOk(w', c, d)
  {
  }

  lemma OthersStay(w: World, e: World, i: nat, j: nat)
    requires Inv(w) && i in w.calls && j in w.calls && i != j
    requires Onward(w, e, w.calls[i]) && Onward(w, e, w.calls[j])
    ensures PairOk(e, w.calls[i], w.calls[j])
  {
    assert PairOk(w, w.calls[i], w.calls[j]);
    PairStays(w, e, w.calls[i], w.calls[j]);
  }

  /** One call moved on, or began, while the rest of the world moved on around the others. */
  lemma MoveKeeps(w: World, e: World, id: nat, c: Call)
    requires Inv(w) && StoreOk(e) && CallOk(e, c)
    requires forall j <- w.calls | j != id :: Onward(w, e, w.calls[j]) && PairOk(e, c, w.calls[j])
    ensures Inv(e.(calls := w.calls[id := c]))
  {
    var w' := e.(calls := w.calls[id := c]);
    forall j <- w'.calls
      ensures CallOk(w', w'.calls[j])
    {
      if j != id {
        CallStays(w, e, w.calls[j]);
      }
      SameStore(e, w', w'.calls[j]);
    }
    forall i, j | i in w'.calls && j in w'.calls && i != j
      ensures PairOk(w', w'.calls[i], w'.calls[j])
    {
      if i == id {
        SamePair(e, w', c, w.calls[j]);
      } else if j == id {
        PairSwaps(e, c, w.calls[i]);
        SamePair(e, w', w.calls[i], c);
      } else {
        OthersStay(w, e, i, j);
        SamePair(e, w', w.calls[i], w.calls[j]);
      }
    }
  }

  lemma PairSwaps(w: World, c: Call, d: Call)
    ensures PairOk(w, c, d) <==> PairOk(w, d, c)
  {
  }

  lemma SamePair(e: World, w: World, c: Call, d: Call)
    requires w == e.(calls := w.calls)
    ensures PairOk(e, c, d) <==> PairOk(w, c, d)
  {
  }

  lemma SameStore(e: World, w: World, c: Call)
    requires w == e.(calls := w.calls)
    ensures CallOk(e, c) <==> CallOk(w, c)
  {
  }

  lemma RestKeeps(w: World, w': World)
    requires Inv(w) && StoreOk(w') && w'.calls == w.calls
    requires forall j <- w.calls :: Onward(w, w', w.calls[j])
    ensures Inv(w')
  {
    forall j <- w.calls
      ensures CallOk(w', w.calls[j])
    {
      CallStays(w, w', w.calls[j]);
    }
    forall i, j | i in w.calls && j in w.calls && i != j
      ensures PairOk(w', w.calls[i], w.calls[j])
    {
      OthersStay(w, w', i, j);
    }
  }

  // ------------------------------------------------------------------- steps

  /** What one answer to one call makes of the store, of that call, and of another call beside it. */
  ghost predicate Moves(w: World, c: Call, event: Event, d: Call)
  {
    Onward(w, Effect(w, c, event), d) && PairOk(Effect(w, c, event), Next(w, c, event), d)
  }

  ghost predicate Lands(w: World, c: Call, event: Event)
  {
    StoreOk(Effect(w, c, event)) && CallOk(Effect(w, c, event), Next(w, c, event))
  }

  lemma KindLands(c: Call, event: Event, n: nat, live: bool)
    requires KindOk(c) && Expected(c, event)
    ensures KindOk(After(c, event, n, live))
  {
  }

  lemma EarlyLands(c: Call, event: Event, n: nat, live: bool)
    requires EarlyOk(c) && Expected(c, event)
    ensures EarlyOk(After(c, event, n, live))
  {
    var c' := After(c, event, n, live);
    if event.Looked? {
      assert c'.stage == Checking || c'.stage == Routing || c'.stage == Answered;
    } else if event.Opened? {
      assert c'.attempt == 0 && !c'.looked;
    } else {
      assert c'.stage != Opening && c'.stage != Counting;
    }
  }

  lemma SessionLands(c: Call, event: Event, n: nat, live: bool)
    requires ShapeOk(c) && SessionOk(c) && Expected(c, event)
    ensures SessionOk(After(c, event, n, live))
  {
  }

  /** What a call has got of its token and of its number, at each stage. */
  lemma StageLands(c: Call, event: Event, n: nat, live: bool)
    requires ShapeOk(c) && LookOk(c) && RangeOk(c) && Expected(c, event) && n > 0
    ensures LookOk(After(c, event, n, live)) && RangeOk(After(c, event, n, live))
  {
  }

  lemma RedemptionStage(c: Call, event: Event, n: nat, live: bool)
    requires ShapeOk(c) && LookOk(c) && SessionOk(c) && TakenOk(c) && Expected(c, event)
    ensures TakenOk(After(c, event, n, live))
  {
  }

  lemma WaitingLands(c: Call, event: Event, n: nat, live: bool)
    requires Expected(c, event) && Waiting(After(c, event, n, live))
    ensures Waiting(c) || (event.Opened? && event.accepted)
  {
  }

  /** Which answers touch what a call is told apart by: its number and its look here, what it took below. */
  lemma NumbersStand(c: Call, event: Event, n: nat, live: bool)
    requires Expected(c, event)
    ensures var c' := After(c, event, n, live);
            && c'.caller == c.caller
            && c'.attempt == (if event.Counted? && event.told then n else c.attempt)
            && (c'.looked ==> c.looked || (event.Looked? && live))
  {
  }

  lemma TakingStands(c: Call, event: Event, n: nat, live: bool)
    requires Expected(c, event)
    ensures var c' := After(c, event, n, live);
            && (c'.taking.consumed == Some(true) ==>
                  c.taking.consumed == Some(true) || (event.Deleted? && event.told && c.stage != Spending))
            && (c'.taking.spent ==> c.taking.spent || (event.Deleted? && event.applied && c.stage == Spending))
  {
  }

  lemma EffectIsApart(w: World, c: Call, event: Event)
    requires !event.Replaced?
    ensures Effect(w, c, event).issued == w.issued && Effect(w, c, event).now == w.now
    ensures Effect(w, c, event).rows == if event.Deleted? && event.applied then w.rows - {Target(c)} else w.rows
  {
  }

  lemma StoreLands(w: World, c: Call, event: Event)
    requires StoreOk(w) && !event.Replaced?
    ensures StoreOk(Effect(w, c, event))
  {
  }

  /** A live counter of a token still in force only counts up. */
  lemma CounterStands(w: World, c: Call, event: Event, key: Key)
    requires StoreOk(w) && CounterLive(w, key) && key.token in w.issued && !event.Replaced?
    ensures CounterLive(Effect(w, c, event), key)
    ensures w.counters[key].count <= Effect(w, c, event).counters[key].count
  {
  }

  lemma OthersStand(w: World, c: Call, event: Event, d: Call)
    requires StoreOk(w) && !event.Replaced? && CallOk(w, d)
    ensures Onward(w, Effect(w, c, event), d)
  {
    EffectIsApart(w, c, event);
    if InForce(w, d) && CounterLive(w, KeyOf(d)) {
      CounterStands(w, c, event, KeyOf(d));
    }
  }

  lemma FoundLands(w: World, c: Call, event: Event)
    requires StoreOk(w) && CallOk(w, c) && Awaits(w, c, event) && !event.Replaced?
    ensures FoundOk(Effect(w, c, event), Next(w, c, event))
  {
    var n, live := NextCount(w, KeyOf(c)), Live(w, RecordOf(c));
    NumbersStand(c, event, n, live);
    EffectIsApart(w, c, event);
    OthersStand(w, c, event, c);
    if Waiting(Next(w, c, event)) {
      WaitingLands(c, event, n, live);
    }
  }

  lemma GoneLands(w: World, c: Call, event: Event)
    requires StoreOk(w) && CallOk(w, c) && Awaits(w, c, event) && !event.Replaced?
    ensures GoneOk(Effect(w, c, event), Next(w, c, event))
  {
    NumbersStand(c, event, NextCount(w, KeyOf(c)), Live(w, RecordOf(c)));
    TakingStands(c, event, NextCount(w, KeyOf(c)), Live(w, RecordOf(c)));
    EffectIsApart(w, c, event);
  }

  lemma CallLands(w: World, c: Call, event: Event)
    requires StoreOk(w) && CallOk(w, c) && Awaits(w, c, event) && !event.Replaced?
    ensures CallOk(Effect(w, c, event), Next(w, c, event))
  {
    var n, live := NextCount(w, KeyOf(c)), Live(w, RecordOf(c));
    KindLands(c, event, n, live);
    EarlyLands(c, event, n, live);
    SessionLands(c, event, n, live);
    StageLands(c, event, n, live);
    RedemptionStage(c, event, n, live);
    FoundLands(w, c, event);
    GoneLands(w, c, event);
  }

  lemma PairMoves(w: World, c: Call, event: Event, d: Call)
    requires StoreOk(w) && CallOk(w, c) && Awaits(w, c, event) && !event.Replaced? && CallOk(w, d) && PairOk(w, c, d)
    ensures PairOk(Effect(w, c, event), Next(w, c, event), d)
  {
    NumbersStand(c, event, NextCount(w, KeyOf(c)), Live(w, RecordOf(c)));
    TakingStands(c, event, NextCount(w, KeyOf(c)), Live(w, RecordOf(c)));
    EffectIsApart(w, c, event);
  }

  lemma IssueLands(w: World, token: string, role: string, purpose: Purpose, lag: nat, saved: bool)
    requires StoreOk(w) && Unguessed(w, token)
    ensures StoreOk(Recorded(w, token, role, purpose, lag, saved))
  {
  }

  lemma IssueMoves(w: World, token: string, role: string, purpose: Purpose, lag: nat, saved: bool, d: Call)
    requires StoreOk(w) && CallOk(w, d) && token !in w.issued && Trim(token) == token && Trim(d.caller.token) != token
    ensures Onward(w, Recorded(w, token, role, purpose, lag, saved), d)
  {
  }

  /** A resent code's new token: the call that asked for it moves on, the others never presented it. */
  lemma ReplaceLands(w: World, c: Call, event: Event)
    requires StoreOk(w) && CallOk(w, c) && event.Replaced? && Awaits(w, c, event) && Trim(c.caller.token) != event.token
    ensures Lands(w, c, event)
  {
    IssueLands(w, event.token, c.caller.role, c.caller.purpose, event.lag, event.saved);
    IssueMoves(w, event.token, c.caller.role, c.caller.purpose, event.lag, event.saved, c);
    CallStays(w, Effect(w, c, event), c);
  }

  lemma ReplaceMoves(w: World, c: Call, event: Event, d: Call)
    requires StoreOk(w) && CallOk(w, c) && event.Replaced? && Awaits(w, c, event)
    requires CallOk(w, d) && PairOk(w, c, d) && Trim(c.caller.token) != event.token && Trim(d.caller.token) != event.token
    ensures Moves(w, c, event, d)
  {
    IssueMoves(w, event.token, c.caller.role, c.caller.purpose, event.lag, event.saved, c);
    IssueMoves(w, event.token, c.caller.role, c.caller.purpose, event.lag, event.saved, d);
    PairStays(w, Effect(w, c, event), c, d);
  }

  lemma EventLands(w: World, id: nat, event: Event)
    requires Inv(w) && Enabled(w, Act(id, event))
    ensures Lands(w, w.calls[id], event)
  {
    var c := w.calls[id];
    assert CallOk(w, c);
    if event.Replaced? {
      ReplaceLands(w, c, event);
    } else {
      StoreLands(w, c, event);
      CallLands(w, c, event);
    }
  }

  lemma EventMoves(w: World, id: nat, event: Event, j: nat)
    requires Inv(w) && Enabled(w, Act(id, event)) && j in w.calls && j != id
    ensures Moves(w, w.calls[id], event, w.calls[j])
  {
    var c, d := w.calls[id], w.calls[j];
    assert CallOk(w, c) && CallOk(w, d) && PairOk(w, c, d);
    if event.Replaced? {
      ReplaceMoves(w, c, event, d);
    } else {
      OthersStand(w, c, event, d);
      PairMoves(w, c, event, d);
    }
  }

  lemma ActKeeps(w: World, id: nat, event: Event)
    requires Inv(w) && Enabled(w, Act(id, event))
    ensures Inv(Acted(w, id, event))
  {
    var c := w.calls[id];
    EventLands(w, id, event);
    forall j <- w.calls | j != id
      ensures Moves(w, c, event, w.calls[j])
    {
      EventMoves(w, id, event, j);
    }
    MoveKeeps(w, Effect(w, c, event), id, Next(w, c, event));
  }

  lemma BeginKeeps(w: World, id: nat, kind: Kind, role: string, purpose: Purpose, token: string)
    requires Inv(w) && id !in w.calls
    ensures Inv(w.(calls := w.calls[id := NewCall(kind, role, purpose, token)]))
  {
    MoveKeeps(w, w, id, NewCall(kind, role, purpose, token));
  }

  lemma IssueKeeps(w: World, token: string, role: string, purpose: Purpose, lag: nat, saved: bool)
    requires Inv(w) && Unguessed(w, token)
    ensures Inv(Recorded(w, token, role, purpose, lag, saved))
  {
    IssueLands(w, token, role, purpose, lag, saved);
    forall j <- w.calls
      ensures Onward(w, Recorded(w, token, role, purpose, lag, saved), w.calls[j])
    {
      IssueMoves(w, token, role, purpose, lag, saved, w.calls[j]);
    }
    RestKeeps(w, Recorded(w, token, role, purpose, lag, saved));
  }

  lemma TickOnward(w: World, elapsed: nat, c: Call)
    requires StoreOk(w)
    ensures Onward(w, w.(now := w.now + elapsed), c)
  {
  }

  lemma TickKeeps(w: World, elapsed: nat)
    requires Inv(w)
    ensures Inv(w.(now := w.now + elapsed))
  {
    forall j <- w.calls
      ensures Onward(w, w.(now := w.now + elapsed), w.calls[j])
    {
      TickOnward(w, elapsed, w.calls[j]);
    }
    RestKeeps(w, w.(now := w.now + elapsed));
  }

  lemma VanishOnward(w: World, token: string, c: Call)
    ensures Onward(w, w.(rows := w.rows - {token}), c)
  {
  }

  lemma VanishKeeps(w: World, token: string)
    requires Inv(w)
    ensures Inv(w.(rows := w.rows - {token}))
  {
    forall j <- w.calls
      ensures Onward(w, w.(rows := w.rows - {token}), w.calls[j])
    {
      VanishOnward(w, token, w.calls[j]);
    }
    RestKeeps(w, w.(rows := w.rows - {token}));
  }

  lemma StepKeeps(w: World, step: Step)
    requires Inv(w) && Enabled(w, step)
    ensures Inv(Apply(w, step))
  {
    match step
    case Begin(id, kind, role, purpose, token) => BeginKeeps(w, id, kind, role, purpose, token);
    case Issue(token, role, purpose, lag, saved) => IssueKeeps(w, token, role, purpose, lag, saved);
    case Act(id, event) => ActKeeps(w, id, event);
    case Tick(elapsed) => TickKeeps(w, elapsed);
    case Vanish(token) => VanishKeeps(w, token);
  }

  lemma {:induction false} RunKeeps(w: World, run: seq<Step>)
    requires Inv(w) && Valid(w, run)
    ensures Inv(Final(w, run))
    decreases |run|
  {
    if run != [] {
      StepKeeps(w, run[0]);
      RunKeeps(Apply(w, run[0]), run[1..]);
    }
  }

  lemma ReachableIsOk(w: World)
    requires Reachable(w)
    ensures Inv(w)
  {
    var now: int, run: seq<Step> :| Valid(Empty(now), run) && Final(Empty(now), run) == w;
    RunKeeps(Empty(now), run);
  }

  /** A run and one step more. */
  lemma {:induction false} LastStep(w: World, run: seq<Step>, step: Step)
    requires Valid(w, run) && Enabled(Final(w, run), step)
    ensures Valid(w, run + [step]) && Final(w, run + [step]) == Apply(Final(w, run), step)
    decreases |run|
  {
    if run == [] {
      assert (run + [step])[1..] == [];
    } else {
      assert (run + [step])[1..] == run[1..] + [step];
      LastStep(Apply(w, run[0]), run[1..], step);
    }
  }
}
