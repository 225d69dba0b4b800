/** The end of a password reset: the pending token is spent, and only then is the password written. */
module AuthReset {
  import opened Results
  import opened AuthChallenge
  import opened AuthProcess

  datatype ResetError = InvalidOrExpiredToken | PasswordsDoNotMatch | WriteRefused

  /** Why a reset is refused before it writes, at the first guard that refuses it, if any does. */
  function ResetRefusal(w: World, role: string, token: string, matching: bool, a: Around): Option<ResetError>
  {
    if !Signed(w, role, PasswordReset, token, a.decoded) then Some(InvalidOrExpiredToken)
    else if !matching then Some(PasswordsDoNotMatch)
    else if !a.recordReached || !Live(w, Trim(token)) || !a.accountFound || !a.consumeReached then Some(InvalidOrExpiredToken)
    else None
  }

  class ResetPassword {
    const role: string
    const pending: PendingToken
    const stores: Stores
    const log: Log

    constructor (role: string, pending: PendingToken, log: Log)
      requires log.stores == pending.stores && pending.purpose == PasswordReset
      ensures this.role == role && this.pending == pending && this.log == log && Wired()
    {
      this.role := role;
      this.pending := pending;
      this.stores := pending.stores;
      this.log := log;
    }

    ghost predicate Wired()
    {
      pending.stores == stores && log.stores == stores && pending.purpose == PasswordReset
    }

    ghost predicate At(stage: Stage, token: string)
      reads log, stores
    {
      && Wired() && log.Following() && log.call.stage == stage
      && log.call.caller == Caller(Kind.Complete, role, PasswordReset, token)
    }

    /** Whether the token presented was signed for a reset of this role, and the two passwords agree. */
    method Open(token: string, matching: bool, around: Around) returns (refused: Option<ResetError>)
      requires At(Opening, token) && Vouched(stores.View(), token, around.decoded)
      modifies log`states, log`trace, log`call
      ensures At(if refused.None? then Looking else Answered, token)
      ensures log.Start() == old(log.Start())
      ensures log.call.taking == old(log.call.taking)
      ensures refused == if !Signed(stores.View(), role, PasswordReset, token, around.decoded) then Some(InvalidOrExpiredToken)
                         else if !matching then Some(PasswordsDoNotMatch) else None
    {
      var trimmed := Trim(token);
      refused := Some(InvalidOrExpiredToken);
      if trimmed != "" && |trimmed| <= MAX_PENDING_TOKEN_CHARS {
        var payload := pending.Payload(trimmed, around.decoded);
        if payload.Some? && payload.value.role == role {
          refused := if matching then None else Some(PasswordsDoNotMatch);
        }
      }
      log.Note(stores.View(), Opened(refused.None?));
    }

    /** Whether the token's record is there, and names an account. */
    method Look(token: string, around: Around) returns (found: bool)
      requires At(Looking, token)
      modifies log`states, log`trace, log`call
      ensures At(if found then Routing else Answered, token) && log.call.taking == old(log.call.taking)
      ensures log.Start() == old(log.Start())
      ensures found == (around.recordReached && Live(stores.View(), Trim(token)))
    {
      found := pending.Exists(Trim(token), around.recordReached);
      log.Note(stores.View(), Looked(around.recordReached));
    }

    method Find(token: string, around: Around)
      requires At(Routing, token)
      modifies log`states, log`trace, log`call
      ensures At(if around.accountFound then Redeeming else Answered, token) && log.call.taking == old(log.call.taking)
      ensures log.Start() == old(log.Start())
    {
      log.Note(stores.View(), Routed(around.accountFound));
    }

    /** Takes the token out of the table, which only one call ever does. */
    method Take(token: string, around: Around) returns (consumed: bool)
      requires At(Redeeming, token) && log.call.taking.consumed.None?
      modifies stores`rows, log`states, log`trace, log`call
      ensures At(if consumed then Writing else Answered, token)
      ensures log.Start() == old(log.Start())
      ensures log.call.taking.wrote == old(log.call.taking.wrote)
      ensures consumed == (around.consumeReached && Live(old(stores.View()), Trim(token)))
      ensures consumed ==> Trim(token) !in stores.rows
    {
      ghost var was := stores.View();
      consumed := pending.Consume(Trim(token), around.consumeReached);
      log.Note(was, Deleted(consumed, consumed));
    }

    method Write(token: string)
      requires At(Writing, token)
      modifies log`states, log`trace, log`call
      ensures At(Answered, token) && log.call.taking.wrote
      ensures log.Start() == old(log.Start())
    {
      log.Note(stores.View(), Wrote);
    }

    /** Spends the pending token and writes the new password; `written` is what the write came to. */
    method Complete(token: string, matching: bool, around: Around, written: bool)
      returns (answer: Result<(), ResetError>)
      requires Wired() && Vouched(stores.View(), token, around.decoded)
      modifies stores`rows, log
      ensures At(Answered, token)
      ensures log.Start() == State(old(stores.View()), NewCall(Kind.Complete, role, PasswordReset, token))
      ensures log.call.taking.wrote ==> Live(old(stores.View()), Trim(token)) && Trim(token) !in stores.rows
      ensures answer.Success? <==> log.call.taking.wrote && written
      ensures log.call.taking.wrote <==>
                && 0 < |Trim(token)| <= 2_048 && around.decoded.Some?
                && around.decoded.value.role == role && around.decoded.value.purpose == PasswordReset
                && old(stores.now) <= around.decoded.value.exp
                && matching && around.recordReached && Live(old(stores.View()), Trim(token))
                && around.accountFound && around.consumeReached
      ensures answer == Failure(WriteRefused) <==> log.call.taking.wrote && !written
      ensures answer == Failure(PasswordsDoNotMatch) <==>
                && 0 < |Trim(token)| <= 2_048 && around.decoded.Some?
                && around.decoded.value.role == role && around.decoded.value.purpose == PasswordReset
                && old(stores.now) <= around.decoded.value.exp && !matching
      ensures answer == match ResetRefusal(old(stores.View()), role, token, matching, around)
                        case Some(e) => Failure(e)
                        case None => if written then Success(()) else Failure(WriteRefused)
    {
      log.Begin(NewCall(Kind.Complete, role, PasswordReset, token));
      var refused := Open(token, matching, around);
      if refused.Some? {
        return Failure(refused.value);
      }
      var found := Look(token, around);
      if !found {
        return Failure(InvalidOrExpiredToken);
      }
      Find(token, around);
      if !around.accountFound {
        return Failure(InvalidOrExpiredToken);
      }
      var consumed := Take(token, around);
      if !consumed {
        return Failure(InvalidOrExpiredToken);
      }
      Write(token);
      answer := if written then Success(()) else Failure(WriteRefused);
    }
  }
}
