/** The `User` record as an object whose operations update its attributes in
    place. Each method's new state is the matching transition of `UserState`
    applied to the state before the call; the properties the source promises
    are stated again on the methods where they concern that one call. */
module Users {
  import opened Text
  import opened Credentials
  import opened UserState

  class User {
    var name: Option<string>
    var email: Option<string>
    var password: Option<string>
    var rememberDigest: Option<string>
    var activationDigest: Option<string>
    var resetDigest: Option<string>
    var activated: bool
    var activatedAt: Option<int>
    var resetSentAt: Option<int>
    var rememberToken: Option<string>
    var activationToken: Option<string>
    var resetToken: Option<string>
    var newRecord: bool

    /** The attributes as one value. */
    function State(): Record
      reads this
    {
      Record(name, email, password, rememberDigest, activationDigest, resetDigest,
             activated, activatedAt, resetSentAt, rememberToken, activationToken,
             resetToken, newRecord)
    }

    /** A user built from form input, not saved yet. */
    constructor (name: Option<string>, email: Option<string>, password: Option<string>)
      ensures State() == Initial(name, email, password)
    {
      this.name, this.email, this.password := name, email, password;
      rememberDigest, activationDigest, resetDigest := None, None, None;
      activated, activatedAt, resetSentAt := false, None, None;
      rememberToken, activationToken, resetToken := None, None, None;
      newRecord := true;
    }

    /** `remember`: keeps `token` and writes its digest. The write is refused
        (`ok` false) on a user not saved yet, after the token is kept. */
    method Remember(h: Hasher, token: string) returns (ok: bool)
      modifies this
      ensures ok == !old(newRecord)
      ensures State() == RememberStep(old(State()), h, token)
      ensures ok && Sound(h) ==> Authenticated(State(), h, ForRemember, token)
    {
      rememberToken := Some(token);
      if newRecord {
        return false;
      }
      rememberDigest := Some(h.digest(token));
      ok := true;
    }

    /** `forget`: clears the remember digest, so no remember token
        authenticates afterwards. */
    method Forget(h: Hasher) returns (ok: bool)
      modifies this
      ensures ok == !old(newRecord)
      ensures State() == ForgetStep(old(State()))
      ensures ok ==> forall t :: !Authenticated(State(), h, ForRemember, t)
    {
      if newRecord {
        return false;
      }
      rememberDigest := None;
      ok := true;
    }

    /** `activate` at time `now`. */
    method Activate(now: int) returns (ok: bool)
      modifies this
      ensures ok == !old(newRecord)
      ensures State() == ActivateStep(old(State()), now)
      ensures ok ==> activated && activatedAt == Some(now)
    {
      if newRecord {
        return false;
      }
      activated, activatedAt := true, Some(now);
      ok := true;
    }

    /** `create_reset_digest` with a fresh `token` at time `now`; earlier reset
        state is overwritten. */
    method CreateResetDigest(h: Hasher, token: string, now: int) returns (ok: bool)
      modifies this
      ensures ok == !old(newRecord)
      ensures State() == CreateResetDigestStep(old(State()), h, token, now)
      ensures ok && Sound(h) ==> Authenticated(State(), h, ForReset, token)
    {
      resetToken := Some(token);
      if newRecord {
        return false;
      }
      resetDigest, resetSentAt := Some(h.digest(token)), Some(now);
      ok := true;
    }

    /** The before-save hook: lowercases the email in place. Saving runs it only
        after validation has found the email present. */
    method DowncaseEmail()
      requires email.Some?
      modifies this
      ensures State() == DowncaseEmailStep(old(State()))
      ensures email.Some? && IsLowercase(email.value)
    {
      LowerIsLowercase(email.value);
      email := Some(Lower(email.value));
    }

    /** The before-create hook: keeps a fresh activation token and stores its
        digest; `activated` is left alone. */
    method CreateActivationDigest(h: Hasher, token: string)
      modifies this
      ensures State() == CreateActivationDigestStep(old(State()), h, token)
      ensures activated == old(activated)
    {
      activationToken := Some(token);
      activationDigest := Some(h.digest(token));
    }

    /** `save`: refuses an invalid user; otherwise runs the before-save hook,
        then the before-create hook for a user not inserted yet, and inserts it. */
    method Save(h: Hasher, cfg: Config, token: string) returns (saved: bool)
      modifies this
      ensures saved == Valid(old(State()), cfg)
      ensures State() == SaveStep(old(State()), h, cfg, token)
      ensures saved ==> !newRecord && IsLowercase(email.value)
    {
      saved := Valid(State(), cfg);
      if !saved {
        return;
      }
      DowncaseEmail();
      if newRecord {
        CreateActivationDigest(h, token);
        newRecord := false;
      }
    }
  }
}
