/** The first half of a sign-in: one door, the session it has minted, and what becomes of that session. */
module AuthDoor {
  import opened Results

  datatype SignInError = TooManyRequests | InvalidCredentials | Unexpected | NotAdmitted | Unreadable | NotAuthenticated

  /** What a sign-in comes to: a session, a challenge, a refusal, or an exception that goes on up. */
  datatype SignedIn = Session(token: string) | Challenge | Refused(error: SignInError) | Threw

  /** A session the provider minted, and the role its account holds. */
  datatype Authenticated = Authenticated(token: string, role: string)

  /** One awaited answer, unless it threw. */
  datatype Await<T> = Got(value: T) | Thrown

  /** What everything outside the door answers during one sign-in. */
  datatype Around = Around(
    caller: bool, read: bool, identified: bool, blocked: bool,
    authenticated: Option<Authenticated>,
    charged: Await<()>, device: Await<bool>, account: Await<bool>, admitted: Await<bool>,
    challenged: bool, trusted: Await<bool>, started: Await<Result<(), bool>>, registered: Await<bool>)

  /** What a sign-in leaves behind: the sessions handed to revocation, in order, and who was counted against. */
  class SignInDoor {
    const role: string
    var revoked: seq<string>
    var charges: nat

    constructor (role: string)
      ensures this.role == role && revoked == [] && charges == 0
    {
      this.role := role;
      revoked, charges := [], 0;
    }

    /** Every answer on the way to a session, which is what it takes for one to be returned. */
    predicate Deserves(e: Around)
    {
      && e.authenticated.Some? && e.authenticated.value.role == role
      && e.device == Got(true) && e.account == Got(true) && e.admitted == Got(true)
      && (e.challenged ==> e.trusted == Got(true)) && e.registered == Got(true)
    }

    /** Every answer on the way to a challenge: an admitted account on a device nobody trusts yet, and a code sent. */
    predicate Challenges(e: Around)
    {
      && e.authenticated.Some? && e.authenticated.value.role == role
      && e.device == Got(true) && e.account == Got(true) && e.admitted == Got(true)
      && e.challenged && e.trusted == Got(false) && e.started.Got? && e.started.value.Success?
    }

    /** Every answer up to the admission of an account of this door's own role. */
    predicate Admits(e: Around)
    {
      && e.authenticated.Some? && e.authenticated.value.role == role
      && e.device == Got(true) && e.account == Got(true) && e.admitted == Got(true)
    }

    /** Whether a sign-in that holds a session is refused with `error`. */
    predicate RefusesHeld(e: Around, error: SignInError)
    {
      && e.authenticated.Some?
      && var ours := e.authenticated.value.role == role;
         match error
         case InvalidCredentials =>
           (!ours && (e.identified ==> e.charged.Got?)) || (ours && e.device == Got(true) && e.account == Got(false))
         case NotAdmitted => ours && e.device == Got(true) && e.account == Got(true) && e.admitted == Got(false)
         case TooManyRequests => Admits(e) && e.challenged && e.trusted == Got(false) && e.started == Got(Failure(true))
         case Unexpected =>
           || (ours && e.device == Got(false))
           || (Admits(e) && e.challenged && e.trusted == Got(false) && e.started == Got(Failure(false)))
           || (Admits(e) && (e.challenged ==> e.trusted == Got(true)) && e.registered == Got(false))
         case _ => false
    }

    /** Whether a sign-in is refused with `error`. */
    predicate Refuses(e: Around, error: SignInError)
    {
      || (error == TooManyRequests && (!e.caller || (e.read && e.identified && e.blocked)))
      || (error == Unreadable && e.caller && !e.read)
      || (error == NotAuthenticated && e.caller && e.read && !(e.identified && e.blocked) && e.authenticated.None?)
      || (Authenticates(e) && RefusesHeld(e, error))
    }

    /** Whether a recipient is counted against: credentials refused, or an account of another role. */
    predicate Counts(e: Around)
    {
      && e.caller && e.read && !(e.identified && e.blocked) && e.identified
      && match e.authenticated
         case None => true
         case Some(a) => a.role != role && e.charged.Got?
    }

    predicate Authenticates(e: Around)
    {
      e.caller && e.read && !(e.identified && e.blocked) && e.authenticated.Some?
    }

    /** The part of a sign-in that holds a session, up to whatever ends it, and whether it is kept. */
    method Hold(e: Around, token: string) returns (out: SignedIn, keep: bool)
      requires e.authenticated.Some? && token == e.authenticated.value.token
      modifies `charges
      ensures keep <==> out == Session(token)
      ensures out.Session? ==> out.token == token
      ensures out.Session? <==> Deserves(e)
      ensures out.Challenge? <==> Challenges(e)
      ensures forall error :: out == Refused(error) <==> RefusesHeld(e, error)
      ensures charges == old(charges) + if e.identified && e.authenticated.value.role != role && e.charged.Got? then 1 else 0
    {
      keep := false;
      if e.authenticated.value.role != role {
        if e.identified {
          if e.charged.Thrown? {
            return Threw, keep;
          }
          charges := charges + 1;
        }
        return Refused(InvalidCredentials), keep;
      }
      match e.device {
        case Thrown => return Threw, keep;
        case Got(known) => if !known { return Refused(Unexpected), keep; }
      }
      match e.account {
        case Thrown => return Threw, keep;
        case Got(found) => if !found { return Refused(InvalidCredentials), keep; }
      }
      match e.admitted {
        case Thrown => return Threw, keep;
        case Got(ok) => if !ok { return Refused(NotAdmitted), keep; }
      }
      if e.challenged {
        if e.trusted.Thrown? {
          return Threw, keep;
        }
        if !e.trusted.value {
          out := match e.started
                 case Thrown => Threw
                 case Got(Success(_)) => Challenge
                 case Got(Failure(throttled)) => Refused(if throttled then TooManyRequests else Unexpected);
          return out, keep;
        }
      }
      match e.registered {
        case Thrown => return Threw, keep;
        case Got(given) => if !given { return Refused(Unexpected), keep; }
      }
      keep := true;
      out := Session(token);
    }

    /**
     * Signs in. A session the provider minted is returned, or handed to revocation once: which of the two does
     * not depend on how the sign-in ends, an exception included.
     */
    method Run(e: Around) returns (out: SignedIn)
      modifies this
      ensures Authenticates(e) ==>
                var minted := e.authenticated.value.token;
                (out == Session(minted)) != (revoked == old(revoked) + [minted])
      ensures out.Session? ==> Authenticates(e) && out.token == e.authenticated.value.token && revoked == old(revoked)
      ensures !Authenticates(e) ==> revoked == old(revoked)
      ensures out.Session? <==> Authenticates(e) && Deserves(e)
      ensures out.Challenge? <==> Authenticates(e) && Challenges(e)
      ensures forall error :: out == Refused(error) <==> Refuses(e, error)
      ensures charges == old(charges) + if Counts(e) then 1 else 0
    {
      if !e.caller {
        return Refused(TooManyRequests);
      }
      if !e.read {
        return Refused(Unreadable);
      }
      if e.identified && e.blocked {
        return Refused(TooManyRequests);
      }
      if e.authenticated.None? {
        if e.identified {
          charges := charges + 1;
        }
        return Refused(NotAuthenticated);
      }
      var token, keep := e.authenticated.value.token, false;
      out, keep := Hold(e, token);
      if !keep {
        revoked := revoked + [token];
      }
    }
  }
}
