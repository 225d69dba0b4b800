/** One call of the one-time-code challenge taken alone: its objects, each await proved to be a step of the machine. */
module AuthProcess {
  import opened Results
  import opened AuthChallenge
  import opened AuthSafety

  datatype OtpError = InvalidOrExpired | TooManyRequests | Unexpected

  /** What a token's signature vouches for, when it verifies. */
  datatype Claims = Claims(role: string, purpose: Purpose, exp: int)

  /** A session as the provider answers it. */
  datatype Minting = Minting(user: bool, accessToken: bool, role: string)

  /** What the provider made of a code: an error, throttling among them, or a session. */
  datatype ProviderAnswer = Refused(throttled: bool, disabled: bool) | Accepted(session: Minting)

  /** What everything outside this call decides while it runs. */
  datatype Around = Around(
    decoded: Option<Claims>, sameDevice: bool,
    counterReached: bool, lapseReached: bool, limitsPassed: bool, recordReached: bool,
    provider: ProviderAnswer, consumeReached: bool, deviceGiven: bool,
    roleFound: bool, codeSent: bool, sendThrottled: bool, renewed: string, renewalSaved: bool, accountFound: bool)

  // ------------------------------------------------------------------- traces

  /** One call beside the stores it works on. */
  datatype State = State(world: World, call: Call)

  predicate Apart(c: Call, event: Event)
  {
    event.Replaced? ==> event.token != Trim(c.caller.token)
  }

  /** One answer taken by a call that waited for it. */
  ghost predicate StepOf(s: State, event: Event, t: State)
  {
    && Awaits(s.world, s.call, event) && Apart(s.call, event)
    && t == State(Effect(s.world, s.call, event), Next(s.world, s.call, event))
  }

  /** Whether `states` are the ones a call and the stores went through, an answer of `trace` between each two. */
  ghost predicate Followed(states: seq<State>, trace: seq<Event>)
  {
    && |states| == |trace| + 1
    && forall i {:trigger trace[i]} | 0 <= i < |trace| :: StepOf(states[i], trace[i], states[i + 1])
  }

  function ActsOf(id: nat, trace: seq<Event>): seq<Step>
  {
    seq(|trace|, i requires 0 <= i < |trace| => Act(id, trace[i]))
  }

  /** Who else is calling makes no difference to what an answer does. */
  lemma EffectWhoever(w: World, v: World, c: Call, event: Event)
    requires v == w.(calls := v.calls)
    ensures Effect(v, c, event) == Effect(w, c, event).(calls := v.calls)
    ensures Effect(w, c, event).calls == w.calls
  {
  }

  lemma AwaitsWhoever(w: World, id: nat, c: Call, event: Event)
    requires id !in w.calls && Awaits(w, c, event) && (event.Replaced? ==> event.token != Trim(c.caller.token))
    ensures Awaits(w.(calls := w.calls[id := c]), c, event)
  {
  }

  lemma OneStepMore(w: World, id: nat, c: Call, event: Event)
    requires id !in w.calls && Awaits(w, c, event) && (event.Replaced? ==> event.token != Trim(c.caller.token))
    ensures Enabled(w.(calls := w.calls[id := c]), Act(id, event))
    ensures Acted(w.(calls := w.calls[id := c]), id, event)
            == Effect(w, c, event).(calls := w.calls[id := Next(w, c, event)])
    ensures Effect(w, c, event).calls == w.calls
  {
    var v := w.(calls := w.calls[id := c]);
    EffectWhoever(w, v, c, event);
    AwaitsWhoever(w, id, c, event);
    assert Next(v, c, event) == Next(w, c, event);
    assert v.calls[id := Next(w, c, event)] == w.calls[id := Next(w, c, event)];
  }

  lemma FollowedOnceMore(states: seq<State>, trace: seq<Event>, event: Event, next: State)
    requires Followed(states, trace) && StepOf(states[|trace|], event, next)
    ensures Followed(states + [next], trace + [event])
  {
    var states', trace' := states + [next], trace + [event];
    forall i | 0 <= i < |trace'|
      ensures StepOf(states'[i], trace'[i], states'[i + 1])
    {
      if i < |trace| {
        assert trace'[i] == trace[i];
      }
    }
  }

  /** The world with one more call in it. */
  function With(s: State, id: nat): World
  {
    s.world.(calls := s.world.calls[id := s.call])
  }

  lemma RunOnceMore(w: World, run: seq<Step>, v: State, id: nat, event: Event, next: State)
    requires Valid(w, run) && Final(w, run) == With(v, id) && id !in v.world.calls && StepOf(v, event, next)
    ensures Valid(w, run + [Act(id, event)]) && Final(w, run + [Act(id, event)]) == With(next, id)
    ensures next.world.calls == v.world.calls
  {
    OneStepMore(v.world, id, v.call, event);
    LastStep(w, run, Act(id, event));
  }

  /** Whether the first `k` answers are a run, once the call is in the world. */
  ghost predicate RunsTo(states: seq<State>, id: nat, trace: seq<Event>, k: nat)
    requires k <= |trace| && |states| == |trace| + 1
  {
    && Valid(With(states[0], id), ActsOf(id, trace[..k]))
    && Final(With(states[0], id), ActsOf(id, trace[..k])) == With(states[k], id)
    && states[k].world.calls == states[0].world.calls
  }

  lemma ActsGrow(id: nat, trace: seq<Event>, k: nat)
    requires k < |trace|
    ensures ActsOf(id, trace[..k + 1]) == ActsOf(id, trace[..k]) + [Act(id, trace[k])]
  {
  }

  lemma RunsOnceMore(states: seq<State>, id: nat, trace: seq<Event>, k: nat)
    requires Followed(states, trace) && k < |trace| && id !in states[0].world.calls && RunsTo(states, id, trace, k)
    ensures RunsTo(states, id, trace, k + 1)
  {
    ActsGrow(id, trace, k);
    RunOnceMore(With(states[0], id), ActsOf(id, trace[..k]), states[k], id, trace[k], states[k + 1]);
  }

  /** A call taken alone is a run of the machine, so whatever holds of every run holds of it. */
  lemma {:induction false} FollowedIsARun(states: seq<State>, id: nat, trace: seq<Event>, k: nat)
    requires Followed(states, trace) && k <= |trace| && id !in states[0].world.calls
    ensures RunsTo(states, id, trace, k)
  {
    if k == 0 {
      assert ActsOf(id, trace[..0]) == [];
    } else {
      FollowedIsARun(states, id, trace, k - 1);
      RunsOnceMore(states, id, trace, k - 1);
    }
  }

  /** What follows of a call taken alone in a reachable world: where it leads is reachable. */
  lemma AloneIsReachable(states: seq<State>, id: nat, trace: seq<Event>)
    requires Followed(states, trace) && Reachable(states[0].world) && id !in states[0].world.calls
    requires var c := states[0].call;
             && c == NewCall(c.caller.kind, c.caller.role, c.caller.purpose, c.caller.token)
             && (c.caller.kind == Complete ==> c.caller.purpose == PasswordReset)
    ensures Reachable(With(states[|trace|], id))
  {
    var c := states[0].call.caller;
    var now: int, run: seq<Step> :| Valid(Empty(now), run) && Final(Empty(now), run) == states[0].world;
    var begin := AuthChallenge.Begin(id, c.kind, c.role, c.purpose, c.token);
    LastStep(Empty(now), run, begin);
    FollowedIsARun(states, id, trace, |trace|);
    assert trace[..|trace|] == trace;
    RunsJoin(Empty(now), run + [begin], ActsOf(id, trace));
  }

  lemma {:induction false} RunsJoin(w: World, first: seq<Step>, second: seq<Step>)
    requires Valid(w, first) && Valid(Final(w, first), second)
    ensures Valid(w, first + second) && Final(w, first + second) == Final(Final(w, first), second)
    decreases |first|
  {
    if first == [] {
      assert first + second == second;
    } else {
      RunsJoin(Apply(w, first[0]), first[1..], second);
      assert (first + second)[1..] == first[1..] + second;
    }
  }

  // ------------------------------------------------------------------ objects

  /** The table of pending tokens and the counters, with what was ever signed and who else is calling. */
  class Stores {
    var now: int
    var rows: map<string, int>
    var counters: map<Key, Counter>
    ghost var issued: map<string, Issued>
    ghost const others: map<nat, Call>

    constructor (now: int)
      ensures View() == World(now, map[], map[], map[], map[])
    {
      this.now := now;
      rows, counters := map[], map[];
      issued, others := map[], map[];
    }

    ghost function View(): World
      reads this
    {
      World(now, rows, counters, issued, others)
    }

    /** Counts one up under `key`, and answers the count. A lapsed counter starts again, without a lapse. */
    method Incr(key: Key) returns (n: nat)
      modifies `counters
      ensures n == NextCount(old(View()), key)
      ensures counters == old(counters)[key := Counter(n, if CounterLive(old(View()), key) then old(counters[key].until) else None)]
    {
      if key in counters && (counters[key].until.Some? ==> now < counters[key].until.value) {
        n := counters[key].count + 1;
        counters := counters[key := Counter(n, counters[key].until)];
      } else {
        n := 1;
        counters := counters[key := Counter(1, None)];
      }
    }

    /** Has `key` lapse in `ttl`. */
    method Expire(key: Key, ttl: int)
      modifies `counters
      ensures counters == if key in old(counters) then old(counters)[key := Counter(old(counters[key].count), Some(now + ttl))]
                          else old(counters)
    {
      if key in counters {
        counters := counters[key := Counter(counters[key].count, Some(now + ttl))];
      }
    }
  }

  /** The single-use tokens of one purpose. */
  class PendingToken {
    const purpose: Purpose
    const stores: Stores

    constructor (purpose: Purpose, stores: Stores)
      ensures this.purpose == purpose && this.stores == stores
    {
      this.purpose := purpose;
      this.stores := stores;
    }

    /** Records `token`, freshly signed for `role`, unless the table refused it. */
    method Issue(token: string, role: string, saved: bool) returns (r: Option<string>)
      modifies stores`rows, stores`issued
      ensures stores.View() == Recorded(old(stores.View()), token, role, purpose, 0, saved)
      ensures saved ==> token in stores.rows && stores.rows[token] == stores.now + TtlOf(purpose)
      ensures token in stores.issued && stores.issued[token] == Issued(stores.now, stores.now + TtlOf(purpose), role, purpose)
      ensures r == if saved then Some(token) else None
    {
      var expiresAt := stores.now + TtlOf(purpose);
      stores.issued := stores.issued[token := Issued(stores.now, expiresAt, role, purpose)];
      if !saved {
        return None;
      }
      stores.rows := stores.rows[token := expiresAt];
      r := Some(token);
    }

    /** The claims of `token`, when its signature verifies and they still stand for this purpose. */
    method Payload(token: string, decoded: Option<Claims>) returns (r: Option<Claims>)
      ensures r.Some? <==> && decoded.Some? && token != "" && |token| <= MAX_PENDING_TOKEN_CHARS
                           && stores.now <= decoded.value.exp && decoded.value.purpose == purpose
      ensures r.Some? ==> r == decoded
    {
      if token == "" || MAX_PENDING_TOKEN_CHARS < |token| || decoded.None? {
        return None;
      }
      if decoded.value.exp < stores.now || decoded.value.purpose != purpose {
        return None;
      }
      r := decoded;
    }

    /** Whether the record of `token` is there and unexpired. */
    method Exists(token: string, reached: bool) returns (r: bool)
      ensures r == (reached && Live(stores.View(), token))
    {
      r := reached && token in stores.rows && stores.now < stores.rows[token];
    }

    /** Deletes the record of `token` when it is there and unexpired, and answers whether it did. */
    method Consume(token: string, reached: bool) returns (r: bool)
      modifies stores`rows
      ensures r == (reached && Live(old(stores.View()), token))
      ensures stores.rows == if r then old(stores.rows) - {token} else old(stores.rows)
    {
      r := reached && token in stores.rows && stores.now < stores.rows[token];
      if r {
        stores.rows := stores.rows - {token};
      }
    }
  }

  /** What happened so far to the one call in progress. It is history only: nothing a call decides reads it. */
  class Log {
    const stores: Stores
    ghost var states: seq<State>
    ghost var trace: seq<Event>
    ghost var call: Call

    constructor (stores: Stores)
      ensures this.stores == stores
    {
      this.stores := stores;
    }

    ghost predicate Following()
      reads this, stores
    {
      Followed(states, trace) && states[|trace|] == State(stores.View(), call)
    }

    ghost function Start(): State
      requires states != []
      reads this
    {
      states[0]
    }

    ghost method Begin(first: Call)
      modifies this
      ensures Following() && call == first && Start() == State(stores.View(), first)
    {
      states, trace, call := [State(stores.View(), first)], [], first;
    }

    /** One more answer, which took the stores from `was` to what they are. */
    ghost method Note(was: World, event: Event)
      requires Followed(states, trace) && states[|trace|] == State(was, call)
      requires Awaits(was, call, event) && Apart(call, event)
      requires stores.View() == Effect(was, call, event)
      modifies `states, `trace, `call
      ensures Following() && call == Next(was, old(call), event) && Start() == old(Start())
    {
      var next := State(stores.View(), Next(was, call, event));
      FollowedOnceMore(states, trace, event, next);
      states, trace, call := states + [next], trace + [event], next.call;
    }
  }

  /** Whether what a signature vouches for agrees with what was signed. */
  ghost predicate Vouched(w: World, token: string, decoded: Option<Claims>)
  {
    var t := Trim(token);
    t in w.issued && decoded.Some? ==> decoded.value == Claims(w.issued[t].role, w.issued[t].purpose, w.issued[t].exp)
  }

  /** Whether `d` is `c` at another stage: nothing minted, taken or asked for since. */
  predicate Carries(c: Call, d: Call)
  {
    d.caller == c.caller && d.session == c.session && d.taking == c.taking
  }

  /** A counter of another token leaves a new one unguessed. */
  lemma StillUnguessed(w: World, w': World, token: string, key: Key)
    requires Unguessed(w, token) && key.token != token
    requires w' == w.(counters := w'.counters) && w'.counters.Keys <= w.counters.Keys + {key}
    ensures Unguessed(w', token)
  {
    forall k <- w'.counters
      ensures k.token != token
    {
      assert k in w'.counters.Keys;
    }
  }

  lemma TimedDoes(w: World, c: Call, reached: bool, w': World)
    requires w' == w.(counters := w'.counters)
    requires w'.counters == if reached && KeyOf(c) in w.counters
                            then w.counters[KeyOf(c) := Counter(w.counters[KeyOf(c)].count, Some(w.now + COUNTER_TTL))]
                            else w.counters
    ensures Effect(w, c, Timed(reached, reached)) == w'
  {
  }

  lemma DeletedDoes(w: World, c: Call, gone: bool, w': World)
    requires w' == w.(rows := if gone then w.rows - {Target(c)} else w.rows)
    ensures Effect(w, c, Deleted(gone, gone)) == w'
  {
  }

  /** A redemption whose consume answered waits for the device. */
  lemma ConsumeAnswers(w: World, c: Call, consumed: bool)
    requires c.stage == Redeeming && c.caller.kind == Kind.Verify && c.taking.device.None?
    ensures Next(w, c, Deleted(consumed, consumed)) == c.(taking := c.taking.(consumed := Some(consumed)))
  {
  }

  // ------------------------------------------------------ what a call answers

  /** Whether `token`, trimmed, was signed for `role` and `purpose`, and has not expired. */
  predicate Signed(w: World, role: string, purpose: Purpose, token: string, decoded: Option<Claims>)
  {
    && Trim(token) != "" && |Trim(token)| <= MAX_PENDING_TOKEN_CHARS
    && decoded.Some? && w.now <= decoded.value.exp && decoded.value.purpose == purpose && decoded.value.role == role
  }

  /** Whether `token` opens a challenge of `role`, on the device it was minted for. */
  predicate Opens(w: World, role: string, purpose: Purpose, token: string, a: Around)
  {
    Signed(w, role, purpose, token, a.decoded) && a.sameDevice
  }

  /** The number an attempt gets, unless the counter, or the lapse of a first one, could not be reached. */
  function Attempts(w: World, key: Key, a: Around): Option<nat>
  {
    if !a.counterReached || (NextCount(w, key) == 1 && !a.lapseReached) then None else Some(NextCount(w, key))
  }

  /** Why an exchange is refused before its record is looked up, if it is. */
  function BudgetRefusal(w: World, key: Key, a: Around): Option<OtpError>
  {
    match Attempts(w, key, a)
    case None => Some(TooManyRequests)
    case Some(n) =>
      if n > ATTEMPTS_PER_CHALLENGE then Some(InvalidOrExpired)
      else if !a.limitsPassed then Some(TooManyRequests) else None
  }

  /** Whether an exchange takes the record of its token out of the table, having been tried too often. */
  predicate Spends(w: World, key: Key, a: Around)
  {
    Attempts(w, key, a).Some? && ATTEMPTS_PER_CHALLENGE < Attempts(w, key, a).value && a.consumeReached && Live(w, key.token)
  }

  /** Why what the provider answered is not redeemed, if it is not. */
  function ProviderRefusal(provider: ProviderAnswer, role: string): Option<OtpError>
  {
    match provider
    case Refused(throttled, disabled) =>
      Some(if throttled then TooManyRequests else if disabled then Unexpected else InvalidOrExpired)
    case Accepted(session) =>
      if !session.user || !session.accessToken then Some(Unexpected)
      else if session.role != role then Some(InvalidOrExpired) else None
  }

  /** Why an exchange is refused before anything but counters and its own record is touched, if it is. */
  function EntryRefusal(w: World, kind: Kind, role: string, purpose: Purpose, token: string, a: Around): Option<OtpError>
  {
    var budget := BudgetRefusal(w, Key(kind, Trim(token)), a);
    if !Opens(w, role, purpose, token, a) then Some(InvalidOrExpired)
    else if budget.Some? then budget
    else if !a.recordReached || !Live(w, token) then Some(InvalidOrExpired)
    else None
  }

  /** Whether that refusal takes the record of the token with it. */
  predicate SpendsAtEntry(w: World, kind: Kind, role: string, purpose: Purpose, token: string, a: Around)
  {
    Opens(w, role, purpose, token, a) && Spends(w, Key(kind, Trim(token)), a)
  }

  /** Why `verify` is refused, at the first guard that refuses it, if any does. */
  function VerifyRefusal(w: World, role: string, purpose: Purpose, token: string, codeShaped: bool, a: Around): Option<OtpError>
  {
    var entry := EntryRefusal(w, Kind.Verify, role, purpose, token, a);
    var provider := ProviderRefusal(a.provider, role);
    if !codeShaped then Some(InvalidOrExpired)
    else if entry.Some? then entry
    else if provider.Some? then provider
    else if !a.consumeReached then Some(InvalidOrExpired)
    else if !a.deviceGiven then Some(Unexpected)
    else None
  }

  /** Why a code is not sent again to a challenge that was let in, if it is not. */
  function SendRefusal(a: Around): Option<OtpError>
  {
    if !a.roleFound then Some(InvalidOrExpired)
    else if !a.codeSent then Some(if a.sendThrottled then TooManyRequests else Unexpected)
    else if !a.renewalSaved then Some(Unexpected)
    else None
  }

  /** Why `resend` is refused, at the first guard that refuses it, if any does. */
  function ResendRefusal(w: World, role: string, purpose: Purpose, token: string, a: Around): Option<OtpError>
  {
    var entry := EntryRefusal(w, Kind.Resend, role, purpose, token, a);
    if entry.Some? then entry else SendRefusal(a)
  }

  // ------------------------------------------------------ what lets a call through

  /** A token, white space aside, that was signed for this role and purpose, has not expired, and is on its own device. */
  predicate IsTheirs(w: World, role: string, purpose: Purpose, token: string, a: Around)
  {
    && 0 < |Trim(token)| <= 2_048 && a.sameDevice
    && a.decoded.Some? && a.decoded.value.role == role && a.decoded.value.purpose == purpose && w.now <= a.decoded.value.exp
  }

  /** An attempt that was counted, is one of the first five of its window, and passed the limits. */
  predicate IsWithinFive(w: World, kind: Kind, token: string, a: Around)
  {
    var n := NextCount(w, Key(kind, Trim(token)));
    a.counterReached && n <= 5 && (n == 1 ==> a.lapseReached) && a.limitsPassed
  }

  /** Everything an exchange needs before it does what it is for: its own token, an attempt left, and the record there. */
  predicate IsLetIn(w: World, kind: Kind, role: string, purpose: Purpose, token: string, a: Around)
  {
    IsTheirs(w, role, purpose, token, a) && IsWithinFive(w, kind, token, a) && a.recordReached && Live(w, token)
  }

  /** A session the provider minted for a right code, with a user and an access token. */
  predicate IsUsable(provider: ProviderAnswer)
  {
    provider.Accepted? && provider.session.user && provider.session.accessToken
  }

  /** No guard refuses an exchange exactly when it has everything it needs. */
  lemma LetInIff(w: World, kind: Kind, role: string, purpose: Purpose, token: string, a: Around)
    ensures EntryRefusal(w, kind, role, purpose, token, a) == None <==> IsLetIn(w, kind, role, purpose, token, a)
    ensures var refusal := EntryRefusal(w, kind, role, purpose, token, a);
            refusal == Some(TooManyRequests) <==>
              IsTheirs(w, role, purpose, token, a)
              && var n := NextCount(w, Key(kind, Trim(token)));
                 !a.counterReached || (n == 1 && !a.lapseReached) || (n <= 5 && !a.limitsPassed)
    ensures EntryRefusal(w, kind, role, purpose, token, a) != Some(Unexpected)
  {
  }

  /** Which refusal `verify` answers, guard by guard: what is neither throttled nor unexpected is invalid or expired. */
  lemma VerifySays(w: World, role: string, purpose: Purpose, token: string, codeShaped: bool, a: Around)
    ensures var refusal := VerifyRefusal(w, role, purpose, token, codeShaped, a);
            var letIn := codeShaped && IsLetIn(w, Kind.Verify, role, purpose, token, a);
            && (refusal == None <==>
                  letIn && IsUsable(a.provider) && a.provider.session.role == role && a.consumeReached && a.deviceGiven)
            && (letIn && a.provider.Refused? ==>
                  refusal == Some(if a.provider.throttled then TooManyRequests
                                  else if a.provider.disabled then Unexpected else InvalidOrExpired))
            && (letIn && a.provider.Accepted? && !IsUsable(a.provider) ==> refusal == Some(Unexpected))
            && (letIn && IsUsable(a.provider) && (a.provider.session.role != role || !a.consumeReached) ==>
                  refusal == Some(InvalidOrExpired))
            && (letIn && IsUsable(a.provider) && a.provider.session.role == role && a.consumeReached && !a.deviceGiven ==>
                  refusal == Some(Unexpected))
  {
    LetInIff(w, Kind.Verify, role, purpose, token, a);
  }

  /** Which refusal `resend` answers once it was let in: a role that is gone, a code that did not go out, a token not kept. */
  lemma ResendSays(w: World, role: string, purpose: Purpose, token: string, a: Around)
    requires IsLetIn(w, Kind.Resend, role, purpose, token, a)
    ensures var refusal := ResendRefusal(w, role, purpose, token, a);
            && (!a.roleFound ==> refusal == Some(InvalidOrExpired))
            && (a.roleFound && !a.codeSent ==> refusal == Some(if a.sendThrottled then TooManyRequests else Unexpected))
            && (a.roleFound && a.codeSent && !a.renewalSaved ==> refusal == Some(Unexpected))
  {
    LetInIff(w, Kind.Resend, role, purpose, token, a);
  }

  /** The records once the new token stands in the place of `token`, which stays behind when its delete is not reached. */
  function Renewed(w: World, purpose: Purpose, token: string, a: Around): map<string, int>
  {
    w.rows[a.renewed := w.now + TtlOf(purpose)] - (if a.consumeReached then {token} else {})
  }

  lemma RenewedIsLive(w: World, purpose: Purpose, token: string, a: Around)
    requires Live(w, token) && a.renewed !in w.rows
    ensures var w' := w.(rows := Renewed(w, purpose, token, a));
            Live(w', a.renewed) && (a.consumeReached ==> !Live(w', token))
  {
  }

  /** The second half of a sign-in from an unseen device. */
  class OtpChallenge {
    const role: string
    const pending: PendingToken
    const stores: Stores
    const log: Log

    constructor (role: string, pending: PendingToken, log: Log)
      requires log.stores == pending.stores
      ensures this.role == role && this.pending == pending && this.log == log && Wired()
    {
      this.role := role;
      this.pending := pending;
      this.stores := pending.stores;
      this.log := log;
    }

    ghost predicate Wired()
    {
      pending.stores == stores && log.stores == stores
    }

    /** Whether the token presented opens a challenge of this role, on the device it was minted for. */
    method Open(token: string, around: Around) returns (ok: bool)
      requires Wired() && log.Following() && log.call.stage == Opening && log.call.caller.token == token
      requires log.call.caller == Caller(log.call.caller.kind, role, pending.purpose, token) && log.call.caller.kind != Complete
      requires Vouched(stores.View(), token, around.decoded)
      modifies log`states, log`trace, log`call
      ensures log.Following() && log.Start() == old(log.Start())
      ensures Carries(old(log.call), log.call) && log.call.stage == if ok then Counting else Answered
      ensures ok == Opens(stores.View(), role, pending.purpose, token, around)
    {
      var trimmed := Trim(token);
      ok := false;
      if trimmed != "" && |trimmed| <= MAX_PENDING_TOKEN_CHARS {
        var payload := pending.Payload(trimmed, around.decoded);
        ok := payload.Some? && payload.value.role == role && around.sameDevice;
      }
      log.Note(stores.View(), Opened(ok));
    }

    /** Counts this attempt; a first one has still to start its window. */
    method Count(key: Key, reached: bool) returns (n: nat)
      requires Wired() && log.Following() && log.call.stage == Counting && key == KeyOf(log.call)
      modifies stores`counters, log`states, log`trace, log`call
      ensures log.Following() && log.Start() == old(log.Start())
      ensures stores.counters.Keys <= old(stores.counters.Keys) + {key}
      ensures log.call == if n > 0 then Numbered(old(log.call), n) else old(log.call).(stage := Answered)
      ensures n == if reached then NextCount(old(stores.View()), key) else 0
    {
      ghost var was := stores.View();
      n := 0;
      if reached {
        n := stores.Incr(key);
      }
      log.Note(was, Counted(reached, reached));
    }

    /** Starts the window a first attempt opened. */
    method StartWindow(key: Key, reached: bool)
      requires Wired() && log.Following() && log.call.stage == Expiring && key == KeyOf(log.call)
      modifies stores`counters, log`states, log`trace, log`call
      ensures log.Following() && log.Start() == old(log.Start()) && stores.counters.Keys == old(stores.counters.Keys)
      ensures log.call == old(log.call).(stage := if reached then Limiting else Answered)
    {
      ghost var was := stores.View();
      if reached {
        stores.Expire(key, COUNTER_TTL);
      }
      TimedDoes(was, log.call, reached, stores.View());
      log.Note(was, Timed(reached, reached));
    }

    /** How many times this challenge was tried in its window, or nothing when the counter could not say. */
    method AttemptsOf(key: Key, around: Around) returns (attempts: Option<nat>)
      requires Wired() && log.Following() && log.call.stage == Counting && key == KeyOf(log.call)
      modifies stores`counters, log`states, log`trace, log`call
      ensures log.Following() && log.Start() == old(log.Start()) && Carries(old(log.call), log.call)
      ensures stores.counters.Keys <= old(stores.counters.Keys) + {key}
      ensures attempts == Attempts(old(stores.View()), key, around)
      ensures attempts.None? ==> log.call.stage == Answered
      ensures attempts.Some? ==>
                log.call.stage == if attempts.value > ATTEMPTS_PER_CHALLENGE then Spending else Limiting
    {
      var n := Count(key, around.counterReached);
      if n == 0 {
        return None;
      }
      if n == 1 {
        StartWindow(key, around.lapseReached);
        if !around.lapseReached {
          return None;
        }
      }
      attempts := Some(n);
    }

    /** Passes a stage whose answer touches no store: the limits, the role, the send. */
    method Pass(event: Event, passed: bool)
      requires Wired() && log.Following()
      requires (event == Limited(passed) && log.call.stage == Limiting) || (event == Routed(passed) && log.call.stage == Routing)
      requires log.call.caller.kind != Complete
      modifies log`states, log`trace, log`call
      ensures log.Following() && log.Start() == old(log.Start())
      ensures Carries(old(log.call), log.call)
      ensures log.call.stage == if !passed then Answered else if event.Limited? then Looking
                                else if log.call.caller.kind == Kind.Resend then Issuing else Redeeming
    {
      log.Note(stores.View(), event);
    }

    /** Takes a challenge that was tried too often out of the table. */
    method Spend(token: string, around: Around)
      requires Wired() && log.Following() && log.call.stage == Spending && log.call.caller.token == token
      modifies stores`rows, log`states, log`trace, log`call
      ensures log.Following() && log.Start() == old(log.Start()) && log.call.stage == Answered
      ensures log.call.caller == old(log.call.caller) && log.call.session == old(log.call.session)
      ensures around.consumeReached ==> !Live(stores.View(), Trim(token))
      ensures stores.rows == if around.consumeReached && Live(old(stores.View()), Trim(token)) then old(stores.rows) - {Trim(token)}
                             else old(stores.rows)
    {
      ghost var was := stores.View();
      var gone := pending.Consume(Trim(token), around.consumeReached);
      DeletedDoes(was, log.call, gone, stores.View());
      log.Note(was, Deleted(gone, gone));
    }

    /** Holds the exchange to its budget: the counter, then the limits. A challenge tried too often is spent. */
    method Budget(kind: Kind, token: string, around: Around) returns (refused: Option<OtpError>)
      requires Wired() && log.Following() && log.call.stage == Counting && log.call.caller.token == token
      requires log.call.caller.kind == kind && kind != Complete
      modifies stores`counters, stores`rows, log`states, log`trace, log`call
      ensures log.Following() && log.Start() == old(log.Start())
      ensures (refused.None? ==> Carries(old(log.call), log.call))
      ensures stores.rows == if Spends(old(stores.View()), Key(kind, Trim(token)), around) then old(stores.rows) - {Trim(token)}
                             else old(stores.rows)
      ensures stores.counters.Keys <= old(stores.counters.Keys) + {Key(kind, Trim(token))}
      ensures !old(log.call.session.returned) ==> !log.call.session.returned
      ensures log.call.stage == if refused.Some? then Answered else Looking
      ensures refused == BudgetRefusal(old(stores.View()), Key(kind, Trim(token)), around)
    {
      var attempts := AttemptsOf(Key(kind, Trim(token)), around);
      if attempts.None? {
        return Some(TooManyRequests);
      }
      if ATTEMPTS_PER_CHALLENGE < attempts.value {
        Spend(token, around);
        return Some(InvalidOrExpired);
      }
      Pass(Limited(around.limitsPassed), around.limitsPassed);
      refused := if around.limitsPassed then None else Some(TooManyRequests);
    }

    /** Whether the record of the token presented is there. */
    method Look(token: string, around: Around) returns (found: bool)
      requires Wired() && log.Following() && log.call.stage == Looking
      requires log.call.caller.token == token && log.call.caller.kind != Complete
      modifies log`states, log`trace, log`call
      ensures log.Following() && log.Start() == old(log.Start())
      ensures found == (around.recordReached && Live(stores.View(), token))
      ensures Carries(old(log.call), log.call)
      ensures log.call.stage == if !found then Answered
                                else if log.call.caller.kind == Kind.Verify then Checking else Routing
    {
      found := pending.Exists(token, around.recordReached);
      log.Note(stores.View(), Looked(around.recordReached));
    }

    /** The guards both exchanges begin with: the token opens, the budget allows, the record is there. */
    method Enter(kind: Kind, token: string, around: Around) returns (refused: Option<OtpError>)
      requires Wired() && log.Following() && Vouched(stores.View(), token, around.decoded)
      requires kind != Complete && log.call == NewCall(kind, role, pending.purpose, token)
      modifies stores`counters, stores`rows, log`states, log`trace, log`call
      ensures log.Following() && log.Start() == old(log.Start())
      ensures refused == EntryRefusal(old(stores.View()), kind, role, pending.purpose, token, around)
      ensures stores.rows == if SpendsAtEntry(old(stores.View()), kind, role, pending.purpose, token, around)
                             then old(stores.rows) - {Trim(token)} else old(stores.rows)
      ensures stores.counters.Keys <= old(stores.counters.Keys) + {Key(kind, Trim(token))}
      ensures refused.None? ==> Carries(old(log.call), log.call)
      ensures !log.call.session.returned && (refused.None? ==> !log.call.session.revoked)
      ensures log.call.stage == if refused.Some? then Answered else if kind == Kind.Verify then Checking else Routing
    {
      var isOpen := Open(token, around);
      if !isOpen {
        return Some(InvalidOrExpired);
      }
      refused := Budget(kind, token, around);
      if refused.Some? {
        return;
      }
      var found := Look(token, around);
      refused := if found then None else Some(InvalidOrExpired);
    }

    /** Asks the provider to check a code, and answers whether what it minted is this challenge's to redeem. */
    method Ask(around: Around) returns (refused: Option<OtpError>)
      requires Wired() && log.Following() && log.call.stage == Checking && !log.call.session.returned
      modifies log`states, log`trace, log`call
      ensures log.Following() && log.Start() == old(log.Start())
      ensures log.call.caller == old(log.call.caller) && log.call.taking == old(log.call.taking)
      ensures log.call.stage == (if refused.None? then Redeeming else Answered)
      ensures refused == ProviderRefusal(around.provider, role)
      ensures !log.call.session.returned
      ensures refused.None? ==> log.call.session.revoked == old(log.call.session.revoked)
      ensures IsUsable(around.provider) && around.provider.session.role != role ==>
                refused == Some(InvalidOrExpired) && log.call.session.revoked
    {
      var read := if around.provider.Refused? then Wrong
                  else if !around.provider.session.user || !around.provider.session.accessToken then Hollow
                  else Minted(around.provider.session.role == role);
      Answer(read);
      match read
      case Wrong =>
        refused := Some(if around.provider.throttled then TooManyRequests
                        else if around.provider.disabled then Unexpected else InvalidOrExpired);
      case Hollow => refused := Some(Unexpected);
      case Minted(ours) =>
        if !ours {
          Revoke();
          return Some(InvalidOrExpired);
        }
        refused := None;
    }

    /** Takes down what the provider made of the code. */
    method Answer(read: CodeAnswer)
      requires Wired() && log.Following() && log.call.stage == Checking && !log.call.session.returned
      modifies log`states, log`trace, log`call
      ensures log.Following() && log.Start() == old(log.Start())
      ensures log.call.caller == old(log.call.caller) && log.call.taking == old(log.call.taking)
      ensures log.call.stage == if !read.Minted? then Answered else if read.rightRole then Redeeming else Revoking
      ensures !log.call.session.returned && log.call.session.revoked == old(log.call.session.revoked)
    {
      log.Note(stores.View(), Checked(read));
    }

    /** Takes the token of a redemption out of the table, and answers whether it did. */
    method Take(token: string, around: Around) returns (consumed: bool)
      requires Wired() && log.Following() && log.call.stage == Redeeming && log.call.caller.kind == Kind.Verify
      requires log.call.caller.token == token && log.call.taking.consumed.None? && log.call.taking.device.None?
      modifies stores`rows, log`states, log`trace, log`call
      ensures log.Following() && log.Start() == old(log.Start())
      ensures log.call.stage == Redeeming && log.call.session == old(log.call.session)
      ensures log.call.caller == old(log.call.caller) && log.call.taking.device.None?
      ensures log.call.taking.consumed == Some(consumed)
      ensures consumed == (around.consumeReached && Live(old(stores.View()), token))
      ensures consumed ==> token !in stores.rows
    {
      ghost var was := stores.View();
      consumed := pending.Consume(token, around.consumeReached);
      DeletedDoes(was, log.call, consumed, stores.View());
      ConsumeAnswers(was, log.call, consumed);
      log.Note(was, Deleted(consumed, consumed));
    }

    /** Registers the device, which settles a redemption whose token was asked for. */
    method Register(given: bool, ghost consumed: bool)
      requires Wired() && log.Following() && log.call.stage == Redeeming && log.call.caller.kind == Kind.Verify
      requires log.call.taking.consumed == Some(consumed) && log.call.taking.device.None? && !log.call.session.returned
      modifies log`states, log`trace, log`call
      ensures log.Following() && log.Start() == old(log.Start()) && log.call.session.returned == (consumed && given)
      ensures log.call.session.revoked == old(log.call.session.revoked)
      ensures log.call.stage == if consumed && given then Answered else Revoking
    {
      log.Note(stores.View(), Registered(given));
    }

    /** Hands the session to revocation. */
    method Revoke()
      requires Wired() && log.Following() && log.call.stage == Revoking && !log.call.session.returned
      modifies log`states, log`trace, log`call
      ensures log.Following() && log.Start() == old(log.Start())
      ensures log.call.stage == Answered && log.call.session.revoked && !log.call.session.returned
      ensures log.call.caller == old(log.call.caller) && log.call.taking == old(log.call.taking)
    {
      log.Note(stores.View(), Ended);
    }

    /** Consumes the token and registers the device, and returns the session only when both went through. */
    method Redeem(token: string, around: Around) returns (answer: Result<(), OtpError>)
      requires Wired() && log.Following() && log.call.stage == Redeeming && log.call.caller.kind == Kind.Verify
      requires log.call.caller.token == token && !log.call.session.returned && !log.call.session.revoked
      requires log.call.taking == Taking(None, None, false, false)
      modifies stores`rows, log`states, log`trace, log`call
      ensures log.Following() && log.Start() == old(log.Start()) && log.call.stage == Answered
      ensures answer.Success? <==> log.call.session.returned
      ensures answer.Failure? <==> log.call.session.revoked
      ensures answer.Success? ==> token !in stores.rows
      ensures answer == if !around.consumeReached || !Live(old(stores.View()), token) then Failure(InvalidOrExpired)
                        else if !around.deviceGiven then Failure(Unexpected) else Success(())
    {
      var consumed := Take(token, around);
      Register(around.deviceGiven, consumed);
      if !consumed {
        Revoke();
        return Failure(InvalidOrExpired);
      }
      if !around.deviceGiven {
        Revoke();
        return Failure(Unexpected);
      }
      answer := Success(());
    }

    /** Exchanges a code for a session. */
    method Verify(token: string, codeShaped: bool, around: Around) returns (answer: Result<(), OtpError>)
      requires Wired() && Vouched(stores.View(), token, around.decoded)
      modifies stores`counters, stores`rows, log
      ensures log.Following() && log.Start() == State(old(stores.View()), NewCall(Kind.Verify, role, pending.purpose, token))
      ensures log.call.stage == Answered
      ensures answer.Success? <==> log.call.session.returned
      ensures answer.Success? ==> Live(old(stores.View()), token) && token !in stores.rows
      ensures answer == match VerifyRefusal(old(stores.View()), role, pending.purpose, token, codeShaped, around)
                        case None => Success(())
                        case Some(e) => Failure(e)
      ensures answer.Success? <==>
                && codeShaped && IsLetIn(old(stores.View()), Kind.Verify, role, pending.purpose, token, around)
                && IsUsable(around.provider) && around.provider.session.role == role
                && around.consumeReached && around.deviceGiven
      ensures codeShaped && IsLetIn(old(stores.View()), Kind.Verify, role, pending.purpose, token, around)
              && IsUsable(around.provider) ==>
                && (answer.Success? <==> !log.call.session.revoked)
                && (around.provider.session.role != role ==> answer == Failure(InvalidOrExpired) && log.call.session.revoked)
      ensures codeShaped && IsTheirs(old(stores.View()), role, pending.purpose, token, around)
              && around.counterReached && 5 < NextCount(old(stores.View()), Key(Kind.Verify, Trim(token))) ==>
                && answer == Failure(InvalidOrExpired)
                && (around.consumeReached ==> !Live(stores.View(), Trim(token)))
    {
      VerifySays(stores.View(), role, pending.purpose, token, codeShaped, around);
      log.Begin(NewCall(Kind.Verify, role, pending.purpose, token));
      if !codeShaped {
        log.Note(stores.View(), Opened(false));
        return Failure(InvalidOrExpired);
      }
      var refused := Enter(Kind.Verify, token, around);
      if refused.Some? {
        return Failure(refused.value);
      }
      refused := Ask(around);
      if refused.Some? {
        return Failure(refused.value);
      }
      answer := Redeem(token, around);
    }

    /** Signs and records the token that replaces the one presented. */
    method Renew(token: string, around: Around) returns (renewed: Option<string>)
      requires Wired() && log.Following() && log.call.stage == Issuing
      requires log.call.caller == Caller(Kind.Resend, role, pending.purpose, token)
      requires Unguessed(stores.View(), around.renewed) && around.renewed != Trim(token)
      modifies stores`rows, stores`issued, log`states, log`trace, log`call
      ensures log.Following() && log.Start() == old(log.Start()) && log.call.caller == old(log.call.caller)
      ensures log.call.stage == if renewed.Some? then Replacing else Answered
      ensures around.renewed in stores.issued
      ensures renewed == if around.renewalSaved then Some(around.renewed) else None
      ensures stores.rows == if renewed.Some? then old(stores.rows)[around.renewed := stores.now + TtlOf(pending.purpose)]
                             else old(stores.rows)
    {
      ghost var was := stores.View();
      renewed := pending.Issue(around.renewed, role, around.renewalSaved);
      log.Note(was, Replaced(around.renewed, 0, around.renewalSaved, around.renewalSaved));
    }

    /** Takes the token that was replaced out of the table. */
    method Retire(token: string, around: Around)
      requires Wired() && log.Following() && log.call.stage == Replacing
      requires log.call.caller == Caller(Kind.Resend, role, pending.purpose, token)
      modifies stores`rows, log`states, log`trace, log`call
      ensures log.Following() && log.Start() == old(log.Start()) && log.call.stage == Answered
      ensures stores.rows == if around.consumeReached && Live(old(stores.View()), token) then old(stores.rows) - {token}
                             else old(stores.rows)
    {
      ghost var was := stores.View();
      var gone := pending.Consume(token, around.consumeReached);
      DeletedDoes(was, log.call, gone, stores.View());
      log.Note(was, Deleted(gone, gone));
    }

    /** Puts a new token in the place of the one presented, and answers it, or nothing when it was not recorded. */
    method Replace(token: string, around: Around) returns (renewed: Option<string>)
      requires Wired() && log.Following() && log.call.stage == Issuing
      requires log.call.caller == Caller(Kind.Resend, role, pending.purpose, token) && Live(stores.View(), token)
      requires Unguessed(stores.View(), around.renewed) && around.renewed != Trim(token)
      modifies stores`rows, stores`issued, log`states, log`trace, log`call
      ensures log.Following() && log.Start() == old(log.Start()) && log.call.stage == Answered
      ensures around.renewed in stores.issued
      ensures renewed == if around.renewalSaved then Some(around.renewed) else None
      ensures stores.rows == if renewed.Some? then Renewed(old(stores.View()), pending.purpose, token, around) else old(stores.rows)
    {
      renewed := Renew(token, around);
      if renewed.Some? {
        Retire(token, around);
      }
    }

    /** Sends the code of a challenge that was let in, and replaces its token. */
    method SendAgain(token: string, around: Around) returns (answer: Result<string, OtpError>)
      requires Wired() && log.Following() && log.call.stage == Routing
      requires log.call.caller == Caller(Kind.Resend, role, pending.purpose, token) && Live(stores.View(), token)
      requires Unguessed(stores.View(), around.renewed) && around.renewed != Trim(token)
      modifies stores`rows, stores`issued, log`states, log`trace, log`call
      ensures log.Following() && log.Start() == old(log.Start()) && log.call.stage == Answered
      ensures answer.Success? ==> around.renewed in stores.issued
      ensures answer == match SendRefusal(around) case None => Success(around.renewed) case Some(e) => Failure(e)
      ensures stores.rows == if answer.Success? then Renewed(old(stores.View()), pending.purpose, token, around)
                             else old(stores.rows)
    {
      Pass(Routed(around.roleFound && around.codeSent), around.roleFound && around.codeSent);
      if !around.roleFound {
        return Failure(InvalidOrExpired);
      }
      if !around.codeSent {
        return Failure(if around.sendThrottled then TooManyRequests else Unexpected);
      }
      var renewed := Replace(token, around);
      answer := if renewed.None? then Failure(Unexpected) else Success(renewed.value);
    }

    /** Sends another code for a challenge already open, and replaces its token. */
    method Resend(token: string, around: Around) returns (answer: Result<string, OtpError>)
      requires Wired() && Vouched(stores.View(), token, around.decoded)
      requires Unguessed(stores.View(), around.renewed) && around.renewed != Trim(token)
      modifies stores`counters, stores`rows, stores`issued, log
      ensures log.Following() && log.Start() == State(old(stores.View()), NewCall(Kind.Resend, role, pending.purpose, token))
      ensures log.call.stage == Answered
      ensures answer.Success? ==>
                && around.renewed in stores.issued && Live(stores.View(), around.renewed)
                && (around.consumeReached ==> !Live(stores.View(), token))
                && stores.rows == Renewed(old(stores.View()), pending.purpose, token, around)
      ensures answer.Failure? ==>
                stores.rows == if SpendsAtEntry(old(stores.View()), Kind.Resend, role, pending.purpose, token, around)
                               then old(stores.rows) - {Trim(token)} else old(stores.rows)
      ensures answer.Success? <==>
                && IsLetIn(old(stores.View()), Kind.Resend, role, pending.purpose, token, around)
                && around.roleFound && around.codeSent && around.renewalSaved
      ensures answer == match ResendRefusal(old(stores.View()), role, pending.purpose, token, around)
                        case None => Success(around.renewed)
                        case Some(e) => Failure(e)
    {
      ghost var was := stores.View();
      LetInIff(was, Kind.Resend, role, pending.purpose, token, around);
      log.Begin(NewCall(Kind.Resend, role, pending.purpose, token));
      var refused := Enter(Kind.Resend, token, around);
      if refused.Some? {
        return Failure(refused.value);
      }
      StillUnguessed(was, stores.View(), around.renewed, Key(Kind.Resend, Trim(token)));
      RenewedIsLive(was, pending.purpose, token, around);
      answer := SendAgain(token, around);
    }
  }
}
