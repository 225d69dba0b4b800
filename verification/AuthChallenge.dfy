/** The one-time-code challenge and its pending tokens: every interleaving of concurrent calls over one store. */
module AuthChallenge {
  import opened Results

  const ATTEMPTS_PER_CHALLENGE: nat := 5
  const COUNTER_TTL: int := 600_000
  const MAX_PENDING_TOKEN_CHARS: nat := 2_048

  datatype Purpose = SignIn | PasswordReset | VpnAccess

  /** How long a token of each purpose lasts, in milliseconds. */
  function TtlOf(purpose: Purpose): nat
  {
    match purpose
    case SignIn => 600_000
    case PasswordReset => 600_000
    case VpnAccess => 14_400_000
  }

  // ---------------------------------------------------------------- trimming

  /** The white space a caller may leave around a token. */
  predicate IsSpace(c: char)
  {
    var n := c as int;
    || 0x9 <= n <= 0xD || n == 0x20 || n == 0xA0 || n == 0x1680 || 0x2000 <= n <= 0x200A
    || n == 0x2028 || n == 0x2029 || n == 0x202F || n == 0x205F || n == 0x3000 || n == 0xFEFF
  }

  function TrimStart(s: string): string
  {
    if s != [] && IsSpace(s[0]) then TrimStart(s[1..]) else s
  }

  function TrimEnd(s: string): string
  {
    if s != [] && IsSpace(s[|s| - 1]) then TrimEnd(s[..|s| - 1]) else s
  }

  function Trim(s: string): string
  {
    TrimEnd(TrimStart(s))
  }

  predicate AllSpace(s: string)
  {
    forall c <- s :: IsSpace(c)
  }

  lemma {:induction false} TrimStartIs(s: string) returns (front: string)
    ensures s == front + TrimStart(s) && AllSpace(front)
    ensures TrimStart(s) != [] ==> !IsSpace(TrimStart(s)[0])
  {
    front := [];
    if s != [] && IsSpace(s[0]) {
      front := TrimStartIs(s[1..]);
      assert s == [s[0]] + s[1..];
      front := [s[0]] + front;
    }
  }

  lemma {:induction false} TrimEndIs(s: string) returns (back: string)
    ensures s == TrimEnd(s) + back && AllSpace(back)
    ensures var t := TrimEnd(s); t != [] ==> t[0] == s[0] && !IsSpace(t[|t| - 1])
  {
    back := [];
    if s != [] && IsSpace(s[|s| - 1]) {
      back := TrimEndIs(s[..|s| - 1]);
      assert s == s[..|s| - 1] + [s[|s| - 1]];
      back := back + [s[|s| - 1]];
    }
  }

  /** Trimming takes the white space off both ends, and nothing else: what is left starts and ends with something. */
  lemma TrimTakesTheEndsOff(s: string) returns (front: string, back: string)
    ensures s == front + Trim(s) + back && AllSpace(front) && AllSpace(back)
    ensures var t := Trim(s); t != [] ==> !IsSpace(t[0]) && !IsSpace(t[|t| - 1])
  {
    front := TrimStartIs(s);
    back := TrimEndIs(TrimStart(s));
    assert s == front + (Trim(s) + back);
  }

  // ------------------------------------------------------------------- state

  datatype Kind = Verify | Resend | Complete

  /** What a counter is kept under: which exchange, and the token it was presented for. */
  datatype Key = Key(kind: Kind, token: string)

  /** One attempt counter: a lapsed one reads as absent, and one without a lapse never lapses. */
  datatype Counter = Counter(count: nat, until: Option<int>)

  /** What is known of a token once it was signed: when its record was written, when it lapses, and what for. */
  datatype Issued = Issued(at: int, exp: int, role: string, purpose: Purpose)

  /** What the identity provider minted for a call: nothing, a session this side can use, or one it cannot. */
  datatype Minted = Nothing | Session | Unusable

  /** Where a call stands, which is the next answer it waits for. */
  datatype Stage =
    | Opening
    | Counting
    | Expiring
    | Limiting
    | Spending
    | Looking
    | Routing
    | Checking
    | Redeeming
    | Revoking
    | Issuing
    | Replacing
    | Writing
    | Answered
    | Threw

  /** Which exchange a call is, on whose behalf, and the token it presents. */
  datatype Caller = Caller(kind: Kind, role: string, purpose: Purpose, token: string)

  /** The session minted for a call, and what became of it: handed to the caller, or to revocation. */
  datatype Mint = Mint(minted: Minted, returned: bool, revoked: bool)

  /** The writes a call made: what its consume and its registration answered, and whether it wrote or spent. */
  datatype Taking = Taking(consumed: Option<bool>, device: Option<bool>, wrote: bool, spent: bool)

  /**
   * One call of `verify`, `resend` or `complete`. `attempt` is the number its counter gave it; `looked` says its
   * token's record was found, and `checked` that the provider was asked.
   */
  datatype Call = Call(caller: Caller, stage: Stage, attempt: nat, looked: bool, checked: bool, session: Mint, taking: Taking)

  datatype World = World(now: int, rows: map<string, int>, counters: map<Key, Counter>,
                         issued: map<string, Issued>, calls: map<nat, Call>)

  /** The string a call looks its record up by: `verify` and `resend` do not trim it, `complete` does. */
  function RecordOf(c: Call): string
  {
    if c.caller.kind == Complete then Trim(c.caller.token) else c.caller.token
  }

  predicate Live(w: World, token: string)
  {
    token in w.rows && w.now < w.rows[token]
  }

  predicate CounterLive(w: World, key: Key)
  {
    key in w.counters && (w.counters[key].until.Some? ==> w.now < w.counters[key].until.value)
  }

  function KeyOf(c: Call): Key
  {
    Key(c.caller.kind, Trim(c.caller.token))
  }

  /** Whether nobody has presented `token` yet, which is what its random part and its signature give. */
  ghost predicate Unguessed(w: World, token: string)
  {
    && token !in w.issued && token !in w.rows && Trim(token) == token && token != ""
    && (forall id <- w.calls :: Trim(w.calls[id].caller.token) != token)
    && (forall key <- w.counters :: key.token != token)
  }

  // ------------------------------------------------------------------- steps

  /** What the provider's code check came to: refused, a session, or one with no user or no access token. */
  datatype CodeAnswer = Wrong | Minted(rightRole: bool) | Hollow

  /** The answer a waiting call got. A write that was `told` done was done; one that was done may not be told. */
  datatype Event =
    | Opened(accepted: bool)
    | Counted(applied: bool, told: bool)
    | Timed(applied: bool, told: bool)
    | Limited(passed: bool)
    | Looked(reached: bool)
    | Routed(passed: bool)
    | Checked(answer: CodeAnswer)
    | Deleted(applied: bool, told: bool)
    | Registered(given: bool)
    | Replaced(token: string, lag: nat, saved: bool, told: bool)
    | Ended
    | Wrote
    | Failed

  datatype Step =
    | Tick(elapsed: nat)
    | Begin(id: nat, kind: Kind, role: string, purpose: Purpose, token: string)
    | Issue(token: string, role: string, purpose: Purpose, lag: nat, saved: bool)
    | Vanish(token: string)
    | Act(id: nat, event: Event)

  /** Whether the signature and the claims of what `c` presents let it in. Only an issued token is known to. */
  predicate Acceptable(w: World, c: Call)
  {
    var token := Trim(c.caller.token);
    && token != "" && |token| <= MAX_PENDING_TOKEN_CHARS
    && (token in w.issued ==>
          var known := w.issued[token]; known.role == c.caller.role && known.purpose == c.caller.purpose && w.now <= known.exp)
  }

  /** Whether `event` is an answer a call at its stage waits for. */
  predicate Expected(c: Call, event: Event)
  {
    match event
    case Opened(_) => c.stage == Opening
    case Counted(applied, told) => c.stage == Counting && (told ==> applied)
    case Timed(applied, told) => c.stage == Expiring && (told ==> applied)
    case Limited(_) => c.stage == Limiting
    case Looked(_) => c.stage == Looking
    case Routed(_) => c.stage == Routing
    case Checked(_) => c.stage == Checking
    case Deleted(applied, told) =>
      && (c.stage == Spending || c.stage == Replacing || (c.stage == Redeeming && c.taking.consumed.None?))
      && (told ==> applied)
    case Registered(_) => c.stage == Redeeming && c.caller.kind == Verify && c.taking.device.None?
    case Replaced(_, _, _, _) => c.stage == Issuing
    case Ended => c.stage == Revoking
    case Wrote => c.stage == Writing
    case Failed => c.stage != Answered && c.stage != Threw
  }

  /** The record a delete of this call goes for: `#spend` trims the token, a redemption does what the look did. */
  function Target(c: Call): string
  {
    if c.stage == Spending then Trim(c.caller.token) else RecordOf(c)
  }

  /** Whether the stores can give that answer: a delete told done found its record live, a new token is new. */
  ghost predicate Possible(w: World, c: Call, event: Event)
  {
    match event
    case Opened(accepted) => accepted ==> Acceptable(w, c)
    case Deleted(_, told) => told ==> Live(w, Target(c))
    case Replaced(token, _, _, _) => Unguessed(w, token)
    case _ => true
  }

  ghost predicate Awaits(w: World, c: Call, event: Event)
  {
    Expected(c, event) && Possible(w, c, event)
  }

  ghost predicate Enabled(w: World, step: Step)
  {
    match step
    case Tick(_) => true
    case Begin(id, kind, _, purpose, token) => id !in w.calls && (kind == Complete ==> purpose == PasswordReset)
    case Issue(token, _, _, _, _) => Unguessed(w, token)
    case Vanish(_) => true
    case Act(id, event) => id in w.calls && Awaits(w, w.calls[id], event)
  }

  /** A token signed for `role` and `purpose`, with its record written or not. */
  function Recorded(w: World, token: string, role: string, purpose: Purpose, lag: nat, saved: bool): World
  {
    var exp := w.now - lag + TtlOf(purpose);
    w.(issued := w.issued[token := Issued(w.now, exp, role, purpose)],
       rows := if saved then w.rows[token := exp] else w.rows)
  }

  /** A redemption both of whose writes answered goes to its end, returned or revoked. */
  function Settled(c: Call): Call
  {
    if c.caller.kind == Complete then
      if c.taking.consumed == Some(true) then c.(stage := Writing) else c.(stage := Answered)
    else if c.taking.consumed.None? || c.taking.device.None? then c
    else if c.taking.consumed.value && c.taking.device.value then c.(stage := Answered, session := c.session.(returned := true))
    else c.(stage := Revoking)
  }

  /** What a call becomes when its counter gives it `n`. */
  function Numbered(c: Call, n: nat): Call
  {
    c.(attempt := n,
       stage := if n == 1 then Expiring else if n > ATTEMPTS_PER_CHALLENGE then Spending else Limiting)
  }

  function CheckedCall(c: Call, answer: CodeAnswer): Call
  {
    match answer
    case Wrong => c.(checked := true, stage := Answered)
    case Hollow => c.(checked := true, session := c.session.(minted := Unusable), stage := Answered)
    case Minted(rightRole) => 
      c.(checked := true, session := c.session.(minted := Session), stage := if rightRole then Redeeming else Revoking)
  }

  function DeletedCall(c: Call, applied: bool, told: bool): Call
  {
    match c.stage
    case Spending => c.(stage := Answered, taking := c.taking.(spent := applied))
    case Replacing => c.(stage := Answered)
    case _ => Settled(c.(taking := c.taking.(consumed := Some(told))))
  }

  /** What an answer makes of the call that waited for it, given the number its counter gives and its record's life. */
  function After(c: Call, event: Event, n: nat, live: bool): Call
  {
    match event
    case Opened(accepted) =>
      c.(stage := if !accepted then Answered else if c.caller.kind == Complete then Looking else Counting)
    case Counted(_, told) => if told then Numbered(c, n) else c.(stage := Answered)
    case Timed(_, told) => c.(stage := if told then Limiting else Answered)
    case Limited(passed) => c.(stage := if passed then Looking else Answered)
    case Looked(reached) =>
      if reached && live then c.(looked := true, stage := if c.caller.kind == Verify then Checking else Routing)
      else c.(stage := Answered)
    case Routed(passed) =>
      c.(stage := if !passed then Answered else if c.caller.kind == Resend then Issuing else Redeeming)
    case Checked(answer) => CheckedCall(c, answer)
    case Deleted(applied, told) => DeletedCall(c, applied, told)
    case Registered(given) => Settled(c.(taking := c.taking.(device := Some(given))))
    case Replaced(_, _, _, told) => c.(stage := if told then Replacing else Answered)
    case Ended => c.(stage := Answered, session := c.session.(revoked := true))
    case Wrote => c.(stage := Answered, taking := c.taking.(wrote := true))
    case Failed => c.(stage := Threw, checked := c.checked || c.stage == Checking)
  }

  function NextCount(w: World, key: Key): nat
  {
    if CounterLive(w, key) then w.counters[key].count + 1 else 1
  }

  /** What an answer changes beside the call: a counter, a record, or nothing. */
  function Effect(w: World, c: Call, event: Event): World
  {
    var key := KeyOf(c);
    match event
    case Counted(true, _) =>
      var until := if CounterLive(w, key) then w.counters[key].until else None;
      w.(counters := w.counters[key := Counter(NextCount(w, key), until)])
    case Timed(true, _) =>
      if key in w.counters then
        w.(counters := w.counters[key := Counter(w.counters[key].count, Some(w.now + COUNTER_TTL))])
      else w
    case Deleted(true, _) => w.(rows := w.rows - {Target(c)})
    case Replaced(token, lag, saved, _) => Recorded(w, token, c.caller.role, c.caller.purpose, lag, saved)
    case _ => w
  }

  function Next(w: World, c: Call, event: Event): Call
  {
    After(c, event, NextCount(w, KeyOf(c)), Live(w, RecordOf(c)))
  }

  function Acted(w: World, id: nat, event: Event): World
    requires id in w.calls
  {
    var c := w.calls[id];
    Effect(w, c, event).(calls := w.calls[id := Next(w, c, event)])
  }

  function NewCall(kind: Kind, role: string, purpose: Purpose, token: string): Call
  {
    Call(Caller(kind, role, purpose, token), Opening, 0, false, false,
         Mint(Nothing, false, false), Taking(None, None, false, false))
  }

  function Apply(w: World, step: Step): World
    requires step.Act? ==> step.id in w.calls
  {
    match step
    case Tick(elapsed) => w.(now := w.now + elapsed)
    case Begin(id, kind, role, purpose, token) => w.(calls := w.calls[id := NewCall(kind, role, purpose, token)])
    case Issue(token, role, purpose, lag, saved) => Recorded(w, token, role, purpose, lag, saved)
    case Vanish(token) => w.(rows := w.rows - {token})
    case Act(id, event) => Acted(w, id, event)
  }

  // -------------------------------------------------------------------- runs

  ghost predicate Valid(w: World, run: seq<Step>)
    decreases |run|
  {
    run == [] || (Enabled(w, run[0]) && Valid(Apply(w, run[0]), run[1..]))
  }

  ghost function Final(w: World, run: seq<Step>): World
    requires Valid(w, run)
    decreases |run|
  {
    if run == [] then w else Final(Apply(w, run[0]), run[1..])
  }

  function Empty(now: int): World
  {
    World(now, map[], map[], map[], map[])
  }

  /** A state some run leads to, from a store without a token, a counter or a call. */
  ghost predicate Reachable(w: World)
  {
    exists now: int, run: seq<Step> :: Valid(Empty(now), run) && Final(Empty(now), run) == w
  }
}
