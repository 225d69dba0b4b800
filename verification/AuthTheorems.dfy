/** What the one-time-code challenge promises, over every run of it, and exactly when. */
module AuthTheorems {
  import opened Results
  import opened AuthChallenge
  import opened AuthSafety

  // ------------------------------------------------------------ the attempts

  /** The calls of one exchange that found the record of `token`. */
  ghost function LooksOf(w: World, kind: Kind, token: string): set<nat>
  {
    set id <- w.calls | KeyOf(w.calls[id]) == Key(kind, token) && w.calls[id].looked
  }

  /** The calls that asked the provider to check a code for `token`. */
  ghost function ChecksOf(w: World, token: string): set<nat>
  {
    set id <- w.calls | Trim(w.calls[id].caller.token) == token && w.calls[id].checked
  }

  /** Calls numbered apart, from one to `top`, are no more than `top`. */
  lemma {:induction false} NumberedApart(calls: map<nat, Call>, ids: set<nat>, top: nat)
    requires forall id <- ids :: id in calls && 1 <= calls[id].attempt <= top
    requires forall i, j | i in ids && j in ids && i != j :: calls[i].attempt != calls[j].attempt
    ensures |ids| <= top
    decreases top
  {
    if i :| i in ids && calls[i].attempt == top {
      NumberedApart(calls, ids - {i}, top - 1);
    } else if top > 0 {
      NumberedApart(calls, ids, top - 1);
    } else if i :| i in ids {
      assert false;
    }
  }

  /** At most five calls of one exchange get as far as a short token's record. */
  lemma FiveLooksPerToken(w: World, kind: Kind, token: string)
    requires Reachable(w) && kind != Complete && token in w.issued && Short(w.issued[token])
    ensures |LooksOf(w, kind, token)| <= ATTEMPTS_PER_CHALLENGE
  {
    ReachableIsOk(w);
    var ids := LooksOf(w, kind, token);
    forall id <- ids
      ensures 1 <= w.calls[id].attempt <= ATTEMPTS_PER_CHALLENGE
    {
      assert CallOk(w, w.calls[id]);
    }
    forall i, j | i in ids && j in ids && i != j
      ensures w.calls[i].attempt != w.calls[j].attempt
    {
      assert PairOk(w, w.calls[i], w.calls[j]);
    }
    NumberedApart(w.calls, ids, ATTEMPTS_PER_CHALLENGE);
  }

  /** However calls interleave, the provider checks at most five codes for one short token. */
  lemma FiveChecksPerToken(w: World, token: string)
    requires Reachable(w) && token in w.issued && Short(w.issued[token])
    ensures |ChecksOf(w, token)| <= ATTEMPTS_PER_CHALLENGE
  {
    ReachableIsOk(w);
    FiveLooksPerToken(w, Verify, token);
    forall id <- ChecksOf(w, token)
      ensures id in LooksOf(w, Verify, token)
    {
      assert CallOk(w, w.calls[id]);
    }
    SmallerSet(ChecksOf(w, token), LooksOf(w, Verify, token));
  }

  lemma {:induction false} SmallerSet(a: set<nat>, b: set<nat>)
    requires a <= b
    ensures |a| <= |b|
    decreases |a|
  {
    if x :| x in a {
      SmallerSet(a - {x}, b - {x});
    }
  }

  // ---------------------------------------------------------- the redemption

  /** A call that ended well: it returned a session, or wrote a password. */
  predicate Redeemed(c: Call)
  {
    c.session.returned || c.taking.wrote
  }

  /** One token redeems once: two calls that returned or wrote, of whatever exchange, did so for two records. */
  lemma OneRedemptionPerToken(w: World, i: nat, j: nat)
    requires Reachable(w) && i in w.calls && j in w.calls && i != j
    requires Redeemed(w.calls[i]) && Redeemed(w.calls[j])
    ensures RecordOf(w.calls[i]) != RecordOf(w.calls[j])
  {
    ReachableIsOk(w);
    assert CallOk(w, w.calls[i]) && CallOk(w, w.calls[j]);
    assert PairOk(w, w.calls[i], w.calls[j]);
  }

  /** What redeems is a token this side issued, for that role and that purpose, and it is no longer there. */
  lemma RedeemedForItsPurpose(w: World, id: nat)
    requires Reachable(w) && id in w.calls && Redeemed(w.calls[id])
    ensures var c := w.calls[id];
            && RecordOf(c) in w.issued && RecordOf(c) !in w.rows
            && w.issued[RecordOf(c)].role == c.caller.role && w.issued[RecordOf(c)].purpose == c.caller.purpose
  {
    ReachableIsOk(w);
    assert CallOk(w, w.calls[id]);
  }

  /** A session a call had minted is, once that call answered, returned or handed to revocation, and never both. */
  lemma MintedIsReturnedOrRevoked(w: World, id: nat)
    requires Reachable(w) && id in w.calls && w.calls[id].session.minted == Session
    ensures w.calls[id].stage == Answered ==> w.calls[id].session.returned != w.calls[id].session.revoked
    ensures w.calls[id].stage == Threw ==> !w.calls[id].session.returned && !w.calls[id].session.revoked
    ensures !(w.calls[id].session.returned && w.calls[id].session.revoked)
  {
    ReachableIsOk(w);
    assert CallOk(w, w.calls[id]);
  }

  /** Only a session is returned, and only to a call that took its token. */
  lemma ReturnedWasMintedAndPaidFor(w: World, id: nat)
    requires Reachable(w) && id in w.calls && w.calls[id].session.returned
    ensures var c := w.calls[id]; c.session.minted == Session && c.checked && c.looked && c.taking.consumed == Some(true)
  {
    ReachableIsOk(w);
    assert CallOk(w, w.calls[id]);
  }

  /**
   * A token presented with white space around it gets a number before it is looked up, from the counter of the token
   * without the space, but `verify` and `resend` never find it.
   */
  lemma PaddedIsNeverFound(w: World, id: nat)
    requires Reachable(w) && id in w.calls
    requires w.calls[id].caller.kind != Complete && Trim(w.calls[id].caller.token) != w.calls[id].caller.token
    ensures var c := w.calls[id];
            && !c.looked && !c.checked && !c.session.returned
            && (c.stage == Limiting || c.stage == Looking ==> 1 <= c.attempt <= ATTEMPTS_PER_CHALLENGE)
            && (c.attempt > 0 && InForce(w, c) ==>
                  var key := Key(c.caller.kind, Trim(c.caller.token));
                  CounterLive(w, key) && c.attempt <= w.counters[key].count)
  {
    ReachableIsOk(w);
    assert CallOk(w, w.calls[id]);
  }

  /** The calls of one exchange that presented `token` with white space around it, and got one of the five numbers. */
  ghost function PaddedOf(w: World, kind: Kind, token: string): set<nat>
  {
    set id <- w.calls | KeyOf(w.calls[id]) == Key(kind, token) && w.calls[id].caller.token != token
                        && 1 <= w.calls[id].attempt <= ATTEMPTS_PER_CHALLENGE
  }

  /** The calls of one exchange that got one of the five numbers for `token`. */
  ghost function NumberedOf(w: World, kind: Kind, token: string): set<nat>
  {
    set id <- w.calls | KeyOf(w.calls[id]) == Key(kind, token) && 1 <= w.calls[id].attempt <= ATTEMPTS_PER_CHALLENGE
  }

  /** While a short token lasts, no two calls hold one number of its counter. */
  lemma FiveNumbersPerToken(w: World, kind: Kind, token: string)
    requires Reachable(w) && token in w.issued && Short(w.issued[token]) && w.now < w.issued[token].exp
    ensures |NumberedOf(w, kind, token)| <= ATTEMPTS_PER_CHALLENGE
  {
    ReachableIsOk(w);
    var ids := NumberedOf(w, kind, token);
    forall i, j | i in ids && j in ids && i != j
      ensures w.calls[i].attempt != w.calls[j].attempt
    {
      assert PairOk(w, w.calls[i], w.calls[j]);
    }
    NumberedApart(w.calls, ids, ATTEMPTS_PER_CHALLENGE);
  }

  /** Each padded call uses up one of the five: while a short token lasts, it has that many fewer looks left. */
  lemma PaddedUsesUpTheFive(w: World, kind: Kind, token: string)
    requires Reachable(w) && kind != Complete
    requires token in w.issued && Short(w.issued[token]) && w.now < w.issued[token].exp
    ensures |LooksOf(w, kind, token)| + |PaddedOf(w, kind, token)| <= ATTEMPTS_PER_CHALLENGE
  {
    ReachableIsOk(w);
    var looks, padded := LooksOf(w, kind, token), PaddedOf(w, kind, token);
    forall id <- looks
      ensures id in NumberedOf(w, kind, token) && id !in padded
    {
      assert CallOk(w, w.calls[id]);
    }
    FiveNumbersPerToken(w, kind, token);
    SmallerSet(looks + padded, NumberedOf(w, kind, token));
    assert looks * padded == {};
  }

  /** A challenge spent for want of attempts is over: nobody finds its record again. */
  lemma SpentIsOver(w: World, id: nat)
    requires Reachable(w) && id in w.calls && w.calls[id].taking.spent
    ensures !Live(w, Trim(w.calls[id].caller.token))
  {
    ReachableIsOk(w);
    assert CallOk(w, w.calls[id]);
  }

  // ------------------------------------------ where five attempts give way

  lemma Reach(w: World, step: Step)
    requires Reachable(w) && Enabled(w, step)
    ensures Reachable(Apply(w, step))
  {
    var now: int, run: seq<Step> :| Valid(Empty(now), run) && Final(Empty(now), run) == w;
    LastStep(Empty(now), run, step);
  }

  /** One answer taken by a call whose stage and stores are known. */
  lemma Takes(w: World, id: nat, event: Event, e: World, c: Call)
    requires Reachable(w) && id in w.calls && Awaits(w, w.calls[id], event)
    requires Effect(w, w.calls[id], event) == e && Next(w, w.calls[id], event) == c
    ensures Reachable(e.(calls := w.calls[id := c]))
  {
    Reach(w, Act(id, event));
  }

  /** A counter as it stands after one more attempt: the first of a window starts its ten minutes. */
  function Ticked(w: World, key: Key): Counter
  {
    var n := NextCount(w, key);
    Counter(n, if n == 1 then Some(w.now + COUNTER_TTL) else w.counters[key].until)
  }

  function TryCall(role: string, purpose: Purpose, token: string, stage: Stage, attempt: nat, looked: bool, checked: bool): Call
  {
    NewCall(Verify, role, purpose, token).(stage := stage, attempt := attempt, looked := looked, checked := checked)
  }

  /** Where one more call stands once the provider refused its code. */
  function Tried(w: World, id: nat, role: string, purpose: Purpose, token: string): World
  {
    var key := Key(Verify, token);
    w.(counters := w.counters[key := Ticked(w, key)],
       calls := w.calls[id := TryCall(role, purpose, token, Answered, NextCount(w, key), true, true)])
  }

  /** A world where a code for `token` can be tried: it is live, and the window has an attempt left. */
  predicate Tryable(w: World, role: string, purpose: Purpose, token: string)
  {
    && token != "" && |token| <= MAX_PENDING_TOKEN_CHARS && Trim(token) == token
    && token in w.issued && w.issued[token].role == role && w.issued[token].purpose == purpose
    && w.now <= w.issued[token].exp && Live(w, token)
    && NextCount(w, Key(Verify, token)) <= ATTEMPTS_PER_CHALLENGE
  }

  lemma TryOpens(w: World, id: nat, role: string, purpose: Purpose, token: string)
    requires Reachable(w) && id !in w.calls && Tryable(w, role, purpose, token)
    ensures Reachable(w.(calls := w.calls[id := TryCall(role, purpose, token, Counting, 0, false, false)]))
  {
    var w0 := w.(calls := w.calls[id := NewCall(Verify, role, purpose, token)]);
    Reach(w, Begin(id, Verify, role, purpose, token));
    var c1 := TryCall(role, purpose, token, Counting, 0, false, false);
    Takes(w0, id, Opened(true), w0, c1);
    assert w0.(calls := w0.calls[id := c1]) == w.(calls := w.calls[id := c1]);
  }

  lemma TryCounts(w: World, w1: World, id: nat, role: string, purpose: Purpose, token: string)
    requires Tryable(w, role, purpose, token) && Reachable(w1)
    requires w1 == w.(calls := w.calls[id := TryCall(role, purpose, token, Counting, 0, false, false)])
    ensures var key := Key(Verify, token);
            Reachable(w.(counters := w.counters[key := Ticked(w, key)],
                         calls := w.calls[id := TryCall(role, purpose, token, Limiting, NextCount(w, key), false, false)]))
  {
    var key := Key(Verify, token);
    var n := NextCount(w, key);
    var until := if CounterLive(w, key) then w.counters[key].until else None;
    var c2 := TryCall(role, purpose, token, if n == 1 then Expiring else Limiting, n, false, false);
    var e2 := w1.(counters := w1.counters[key := Counter(n, until)]);
    assert KeyOf(w1.calls[id]) == key && NextCount(w1, key) == n;
    Takes(w1, id, Counted(true, true), e2, c2);
    if n == 1 {
      var w2 := e2.(calls := w1.calls[id := c2]);
      var e3 := w2.(counters := w2.counters[key := Ticked(w, key)]);
      var c3 := TryCall(role, purpose, token, Limiting, 1, false, false);
      assert KeyOf(w2.calls[id]) == key;
      Takes(w2, id, Timed(true, true), e3, c3);
      assert e3.counters == w.counters[key := Ticked(w, key)];
      assert w2.calls[id := c3] == w.calls[id := c3];
    } else {
      assert w1.calls[id := c2] == w.calls[id := c2];
    }
  }

  lemma TryChecks(w: World, id: nat, role: string, purpose: Purpose, token: string, n: nat)
    requires Reachable(w) && id in w.calls && Live(w, token)
    requires w.calls[id] == TryCall(role, purpose, token, Limiting, n, false, false)
    ensures Reachable(w.(calls := w.calls[id := TryCall(role, purpose, token, Answered, n, true, true)]))
  {
    var c4 := TryCall(role, purpose, token, Looking, n, false, false);
    var w4 := w.(calls := w.calls[id := c4]);
    Takes(w, id, Limited(true), w, c4);
    var c5 := TryCall(role, purpose, token, Checking, n, true, false);
    var w5 := w4.(calls := w4.calls[id := c5]);
    Takes(w4, id, Looked(true), w4, c5);
    var c6 := TryCall(role, purpose, token, Answered, n, true, true);
    Takes(w5, id, Checked(Wrong), w5, c6);
    assert w5.(calls := w5.calls[id := c6]) == w.(calls := w.calls[id := c6]);
  }

  /** One call of `verify` that gets as far as the provider, taken alone. */
  lemma OneMoreTry(w: World, id: nat, role: string, purpose: Purpose, token: string)
    requires Reachable(w) && id !in w.calls && Tryable(w, role, purpose, token)
    ensures Reachable(Tried(w, id, role, purpose, token))
    ensures Tried(w, id, role, purpose, token).calls.Keys == w.calls.Keys + {id}
    ensures ChecksOf(Tried(w, id, role, purpose, token), token) == ChecksOf(w, token) + {id}
  {
    var key := Key(Verify, token);
    var n := NextCount(w, key);
    var w1 := w.(calls := w.calls[id := TryCall(role, purpose, token, Counting, 0, false, false)]);
    TryOpens(w, id, role, purpose, token);
    TryCounts(w, w1, id, role, purpose, token);
    var w3 := w.(counters := w.counters[key := Ticked(w, key)],
                 calls := w.calls[id := TryCall(role, purpose, token, Limiting, n, false, false)]);
    TryChecks(w3, id, role, purpose, token, n);
    var w6 := Tried(w, id, role, purpose, token);
    assert w3.calls[id := w6.calls[id]] == w6.calls;
  }

  /** Tries of one window, one after the other, from a world that counted none yet. */
  lemma {:induction false} Tries(w: World, role: string, purpose: Purpose, token: string, k: nat) returns (w': World)
    requires Reachable(w) && Tryable(w, role, purpose, token) && k <= ATTEMPTS_PER_CHALLENGE
    requires Key(Verify, token) !in w.counters && w.calls == map[]
    ensures Reachable(w') && w'.now == w.now && w'.rows == w.rows && w'.issued == w.issued
    ensures k == 0 ==> w' == w
    ensures k > 0 ==> w'.counters == w.counters[Key(Verify, token) := Counter(k, Some(w.now + COUNTER_TTL))]
    ensures forall id :: id in w'.calls ==> id < k
    ensures forall id | 0 <= id < k :: id in ChecksOf(w', token)
    decreases k
  {
    if k == 0 {
      w' := w;
    } else {
      var v := Tries(w, role, purpose, token, k - 1);
      OneMoreTry(v, k - 1, role, purpose, token);
      w' := Tried(v, k - 1, role, purpose, token);
    }
  }

  /** A token issued into an empty world can be tried there. */
  lemma FirstIssue(purpose: Purpose, token: string) returns (w: World)
    requires token != "" && |token| <= MAX_PENDING_TOKEN_CHARS && Trim(token) == token
    ensures w == Recorded(Empty(0), token, "", purpose, 0, true)
    ensures Reachable(w) && Tryable(w, "", purpose, token)
    ensures Key(Verify, token) !in w.counters && w.calls == map[]
  {
    w := Recorded(Empty(0), token, "", purpose, 0, true);
    assert Valid(Empty(0), []) && Final(Empty(0), []) == Empty(0);
    Reach(Empty(0), Issue(token, "", purpose, 0, true));
  }

  /** Once the counter lapsed, a token that did not can be tried again. */
  lemma OneAfterTheLapse(w: World, role: string, purpose: Purpose, token: string, id: nat, count: nat)
    requires Reachable(w) && id !in w.calls
    requires token != "" && |token| <= MAX_PENDING_TOKEN_CHARS && Trim(token) == token
    requires token in w.issued && w.issued[token].role == role && w.issued[token].purpose == purpose
    requires token in w.rows && w.rows[token] == w.issued[token].exp && w.now + COUNTER_TTL < w.rows[token]
    requires Key(Verify, token) in w.counters
    requires w.counters[Key(Verify, token)] == Counter(count, Some(w.now + COUNTER_TTL))
    ensures var w' := Tried(w.(now := w.now + COUNTER_TTL), id, role, purpose, token);
            Reachable(w') && w'.issued == w.issued && ChecksOf(w', token) == ChecksOf(w, token) + {id}
  {
    var v := w.(now := w.now + COUNTER_TTL);
    Reach(w, Tick(COUNTER_TTL));
    OneMoreTry(v, id, role, purpose, token);
    assert ChecksOf(v, token) == ChecksOf(w, token);
  }

  /** A token that outlives its counter is checked a sixth time: five tries, ten minutes, and one more. */
  lemma SixthTry(purpose: Purpose, token: string) returns (w: World)
    requires TtlOf(purpose) > COUNTER_TTL
    requires token != "" && |token| <= MAX_PENDING_TOKEN_CHARS && Trim(token) == token
    ensures Reachable(w) && token in w.issued && w.issued[token].purpose == purpose
    ensures {0, 1, 2, 3, 4, 5} <= ChecksOf(w, token)
  {
    var w1 := FirstIssue(purpose, token);
    var w2 := Tries(w1, "", purpose, token, ATTEMPTS_PER_CHALLENGE);
    OneAfterTheLapse(w2, "", purpose, token, 5, ATTEMPTS_PER_CHALLENGE);
    w := Tried(w2.(now := w2.now + COUNTER_TTL), 5, "", purpose, token);
  }

  lemma PlainToken(c: char)
    requires !IsSpace(c)
    ensures Trim([c]) == [c]
  {
  }

  ghost predicate FiveChecksAtMost(purpose: Purpose)
  {
    forall w, token | Reachable(w) && token in w.issued && w.issued[token].purpose == purpose ::
      |ChecksOf(w, token)| <= ATTEMPTS_PER_CHALLENGE
  }

  lemma ShortPurposeIsBounded(purpose: Purpose, w: World, token: string)
    requires TtlOf(purpose) <= COUNTER_TTL
    requires Reachable(w) && token in w.issued && w.issued[token].purpose == purpose
    ensures |ChecksOf(w, token)| <= ATTEMPTS_PER_CHALLENGE
  {
    ReachableIsOk(w);
    FiveChecksPerToken(w, token);
  }

  lemma LongPurposeIsNot(purpose: Purpose)
    requires TtlOf(purpose) > COUNTER_TTL
    ensures !FiveChecksAtMost(purpose)
  {
    PlainToken('t');
    var token := ['t'];
    var w := SixthTry(purpose, token);
    SixAreMore(ChecksOf(w, token));
    assert Reachable(w) && token in w.issued && w.issued[token].purpose == purpose;
  }

  lemma SixAreMore(ids: set<nat>)
    requires {0, 1, 2, 3, 4, 5} <= ids
    ensures |ids| > ATTEMPTS_PER_CHALLENGE
  {
    SmallerSet({0, 1, 2, 3, 4, 5}, ids);
  }

  /**
   * Five checks bound every token of a purpose exactly when that purpose lasts no longer than the counter, as that of
   * a sign-in does.
   */
  lemma FiveChecksIff(purpose: Purpose)
    ensures FiveChecksAtMost(purpose) <==> TtlOf(purpose) <= COUNTER_TTL
    ensures purpose == SignIn ==> FiveChecksAtMost(purpose)
  {
    if TtlOf(purpose) <= COUNTER_TTL {
      forall w, token | Reachable(w) && token in w.issued && w.issued[token].purpose == purpose
        ensures |ChecksOf(w, token)| <= ATTEMPTS_PER_CHALLENGE
      {
        ShortPurposeIsBounded(purpose, w, token);
      }
    } else {
      LongPurposeIsNot(purpose);
    }
  }
}
