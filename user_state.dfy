/** The user record as a value: its fields, the two queries the source answers
    from them (`authenticated?`, `password_reset_expired?`), the validation
    rules, and the effect of each operation on the record as a function of the
    record before it. The class in `Users` performs these same effects in place. */
module UserState {
  import opened Text
  import opened Credentials

  datatype Option<T> = None | Some(value: T)

  /** The purposes a token can be checked for; `authenticated?` reads the
      `<purpose>_digest` field of the same name. */
  datatype Purpose = ForRemember | ForActivation | ForReset

  /** The external settings the model consults: length bounds, the email
      format (an abstract predicate in place of a regular expression) and the
      reset expiry window in whole hours. */
  datatype Config = Config(
    nameMaxLength: nat,
    emailMinLength: nat,
    emailMaxLength: nat,
    passwordMinLength: nat,
    expirationHours: int,
    emailFormat: string -> bool)

  const SecondsPerHour: int := 3600

  /** The attributes of one user. Digests and timestamps are persisted
      columns, the three tokens are in-memory accessors, `password` is the
      plaintext accessor, and `newRecord` says the row has not been inserted
      yet. Times are whole seconds. */
  datatype Record = Record(
    name: Option<string>,
    email: Option<string>,
    password: Option<string>,
    rememberDigest: Option<string>,
    activationDigest: Option<string>,
    resetDigest: Option<string>,
    activated: bool,
    activatedAt: Option<int>,
    resetSentAt: Option<int>,
    rememberToken: Option<string>,
    activationToken: Option<string>,
    resetToken: Option<string>,
    newRecord: bool)

  /** A record built from form input and not yet saved. */
  function Initial(name: Option<string>, email: Option<string>, password: Option<string>): Record {
    Record(name, email, password, None, None, None, false, None, None, None, None, None, true)
  }

  function DigestFor(r: Record, p: Purpose): Option<string> {
    match p
    case ForRemember => r.rememberDigest
    case ForActivation => r.activationDigest
    case ForReset => r.resetDigest
  }

  // ---------------------------------------------------------------- queries

  /** `authenticated?(purpose, token)`: no digest for the purpose means no,
      whatever the token; otherwise the hash's own check decides. */
  function Authenticated(r: Record, h: Hasher, p: Purpose, token: string): (b: bool)
    ensures DigestFor(r, p).None? ==> !b
    ensures DigestFor(r, p).Some? ==> (b <==> h.verify(token, DigestFor(r, p).value))
  {
    match DigestFor(r, p)
    case None => false
    case Some(digest) => h.verify(token, digest)
  }

  /** `password_reset_expired?` at time `now`: the reset was sent strictly
      before `now` minus the window. `None` stands for the error raised when
      no reset was ever sent (comparing a nil timestamp). */
  function PasswordResetExpired(r: Record, cfg: Config, now: int): (e: Option<bool>)
    ensures e.Some? <==> r.resetSentAt.Some?
    ensures e == Some(true) <==>
      r.resetSentAt.Some? && now > r.resetSentAt.value + cfg.expirationHours * SecondsPerHour
  {
    match r.resetSentAt
    case None => None
    case Some(sentAt) => Some(sentAt < now - cfg.expirationHours * SecondsPerHour)
  }

  // ------------------------------------------------------------- validation

  predicate NameValid(r: Record, cfg: Config) {
    r.name.Some? && Present(r.name.value) && |r.name.value| <= cfg.nameMaxLength
  }

  predicate EmailValid(r: Record, cfg: Config) {
    r.email.Some? && Present(r.email.value)
    && cfg.emailMinLength <= |r.email.value| <= cfg.emailMaxLength
    && cfg.emailFormat(r.email.value)
  }

  /** The password rules apply only when a password was given. */
  predicate PasswordValid(r: Record, cfg: Config) {
    r.password.Some? ==> Present(r.password.value) && |r.password.value| >= cfg.passwordMinLength
  }

  predicate Valid(r: Record, cfg: Config) {
    NameValid(r, cfg) && EmailValid(r, cfg) && PasswordValid(r, cfg)
  }

  /** A user without a password given is judged on name and email alone. */
  lemma PasswordCheckedOnlyWhenGiven(r: Record, cfg: Config)
    requires r.password.None?
    ensures Valid(r, cfg) <==> NameValid(r, cfg) && EmailValid(r, cfg)
  {
  }

  /** A given but empty or all-blank password is refused, whatever the
      minimum length. */
  lemma BlankPasswordRejected(r: Record, cfg: Config)
    requires r.password.Some? && Blank(r.password.value)
    ensures !Valid(r, cfg)
  {
  }

  /** A valid user has a name and an email, and the email's length lies within
      the configured bounds. */
  lemma ValidBounds(r: Record, cfg: Config)
    requires Valid(r, cfg)
    ensures r.name.Some? && 0 < |r.name.value| <= cfg.nameMaxLength
    ensures r.email.Some? && cfg.emailMinLength <= |r.email.value| <= cfg.emailMaxLength
    ensures r.password.Some? ==> 0 < |r.password.value| && cfg.passwordMinLength <= |r.password.value|
  {
  }

  // ------------------------------------------------------------ transitions
  // A column write (`update_column`, `update_columns`) refuses a record that
  // has not been inserted yet; the accessor assignments before it still happen.

  /** `remember`: the new token is kept in memory, its digest written. */
  function RememberStep(r: Record, h: Hasher, token: string): Record {
    var withToken := r.(rememberToken := Some(token));
    if r.newRecord then withToken else withToken.(rememberDigest := Some(h.digest(token)))
  }

  /** `forget`: the remember digest is cleared. */
  function ForgetStep(r: Record): Record {
    if r.newRecord then r else r.(rememberDigest := None)
  }

  /** `activate` at time `now`. */
  function ActivateStep(r: Record, now: int): Record {
    if r.newRecord then r else r.(activated := true, activatedAt := Some(now))
  }

  /** `create_reset_digest` with a fresh token at time `now`. */
  function CreateResetDigestStep(r: Record, h: Hasher, token: string, now: int): Record {
    var withToken := r.(resetToken := Some(token));
    if r.newRecord then withToken
    else withToken.(resetDigest := Some(h.digest(token)), resetSentAt := Some(now))
  }

  /** The before-save hook `downcase_email`. */
  function DowncaseEmailStep(r: Record): Record
    requires r.email.Some?
  {
    r.(email := Some(Lower(r.email.value)))
  }

  /** The before-create hook `create_activation_digest`. */
  function CreateActivationDigestStep(r: Record, h: Hasher, token: string): Record {
    r.(activationToken := Some(token), activationDigest := Some(h.digest(token)))
  }

  /** `save`: validations first; an invalid record is left as it is. Then the
      before-save hook, then, for a record not inserted yet, the before-create
      hook, and the record is inserted. */
  function SaveStep(r: Record, h: Hasher, cfg: Config, token: string): Record {
    if !Valid(r, cfg) then r
    else
      var lowered := DowncaseEmailStep(r);
      if r.newRecord then CreateActivationDigestStep(lowered, h, token).(newRecord := false)
      else lowered
  }

  /** One call on the record from outside; fresh tokens and the clock are
      carried by the operation. */
  datatype Op =
    | DoRemember(token: string)
    | DoForget
    | DoActivate(now: int)
    | DoCreateResetDigest(token: string, now: int)
    | DoSave(token: string)

  function Apply(r: Record, h: Hasher, cfg: Config, op: Op): Record {
    match op
    case DoRemember(token) => RememberStep(r, h, token)
    case DoForget => ForgetStep(r)
    case DoActivate(now) => ActivateStep(r, now)
    case DoCreateResetDigest(token, now) => CreateResetDigestStep(r, h, token, now)
    case DoSave(token) => SaveStep(r, h, cfg, token)
  }

  function Run(r: Record, h: Hasher, cfg: Config, ops: seq<Op>): Record
    decreases |ops|
  {
    if ops == [] then r else Run(Apply(r, h, cfg, ops[0]), h, cfg, ops[1..])
  }

  /** `activated` implies `activated_at` is set. */
  predicate ActivationConsistent(r: Record) {
    r.activated ==> r.activatedAt.Some?
  }

  // ----------------------------------------------------- remember / forget

  /** Right after `remember` on a saved record, the token it keeps
      authenticates for the remember purpose. */
  lemma RememberAuthenticates(r: Record, h: Hasher, token: string)
    requires Sound(h) && !r.newRecord
    ensures RememberStep(r, h, token).rememberToken == Some(token)
    ensures Authenticated(RememberStep(r, h, token), h, ForRemember, token)
  {
  }

  /** `remember` touches the remember token and digest and nothing else; on a
      record not yet inserted the digest is left as it was. */
  lemma RememberFrame(r: Record, h: Hasher, token: string)
    ensures RememberStep(r, h, token).(rememberToken := r.rememberToken, rememberDigest := r.rememberDigest) == r
    ensures r.newRecord ==> RememberStep(r, h, token).rememberDigest == r.rememberDigest
  {
  }

  /** With an exact hash, the newest remember token is the only one accepted:
      remembering again invalidates every earlier token. */
  lemma RememberTokenIsOnlyKey(r: Record, h: Hasher, token: string, other: string)
    requires Exact(h) && !r.newRecord
    ensures Authenticated(RememberStep(r, h, token), h, ForRemember, other) <==> other == token
  {
  }

  /** After `forget` on a saved record no token authenticates for remember. */
  lemma ForgetDeauthenticates(r: Record, h: Hasher, token: string)
    requires !r.newRecord
    ensures !Authenticated(ForgetStep(r), h, ForRemember, token)
  {
  }

  /** `forget` changes the remember digest and nothing else. */
  lemma ForgetFrame(r: Record)
    ensures ForgetStep(r).(rememberDigest := r.rememberDigest) == r
  {
  }

  /** Only `remember` can write a remember digest. */
  lemma {:induction false} RememberDigestOnlyByRemember(r: Record, h: Hasher, cfg: Config, ops: seq<Op>)
    requires r.rememberDigest.None?
    requires forall i :: 0 <= i < |ops| ==> !ops[i].DoRemember?
    ensures Run(r, h, cfg, ops).rememberDigest.None?
    decreases |ops|
  {
    if ops != [] {
      RememberDigestOnlyByRemember(Apply(r, h, cfg, ops[0]), h, cfg, ops[1..]);
    }
  }

  /** Once forgotten, a saved record authenticates no remember token until
      the next `remember`, whatever else happens in between. */
  lemma ForgottenStaysForgotten(r: Record, h: Hasher, cfg: Config, ops: seq<Op>, token: string)
    requires !r.newRecord
    requires forall i :: 0 <= i < |ops| ==> !ops[i].DoRemember?
    ensures !Authenticated(Run(ForgetStep(r), h, cfg, ops), h, ForRemember, token)
  {
    RememberDigestOnlyByRemember(ForgetStep(r), h, cfg, ops);
  }

  // ------------------------------------------------------------ activation

  /** `activate` sets the flag and the time, and leaves every digest and
      token (indeed every other field) as it was. */
  lemma ActivateEffect(r: Record, now: int)
    requires !r.newRecord
    ensures ActivateStep(r, now).activated && ActivateStep(r, now).activatedAt == Some(now)
    ensures ActivateStep(r, now).(activated := r.activated, activatedAt := r.activatedAt) == r
  {
  }

  /** Saving a new valid record creates its activation digest from the token
      it keeps, leaves `activated` alone, and the record is then inserted. */
  lemma SaveCreatesActivationDigest(r: Record, h: Hasher, cfg: Config, token: string)
    requires Sound(h) && r.newRecord && Valid(r, cfg)
    ensures SaveStep(r, h, cfg, token).activationToken == Some(token)
    ensures Authenticated(SaveStep(r, h, cfg, token), h, ForActivation, token)
    ensures SaveStep(r, h, cfg, token).activated == r.activated
    ensures !SaveStep(r, h, cfg, token).newRecord
  {
  }

  /** A freshly created user is not activated until `activate` is called. */
  lemma CreatedUserNotActivated(name: Option<string>, email: Option<string>, password: Option<string>,
                                h: Hasher, cfg: Config, token: string)
    ensures !SaveStep(Initial(name, email, password), h, cfg, token).activated
  {
  }

  /** No operation deactivates a user, and none breaks `activated` implying
      `activated_at`. */
  lemma StepKeepsActivation(r: Record, h: Hasher, cfg: Config, op: Op)
    ensures r.activated ==> Apply(r, h, cfg, op).activated
    ensures ActivationConsistent(r) ==> ActivationConsistent(Apply(r, h, cfg, op))
  {
  }

  /** Activation is one-way over any sequence of operations. */
  lemma {:induction false} RunKeepsActivation(r: Record, h: Hasher, cfg: Config, ops: seq<Op>)
    ensures r.activated ==> Run(r, h, cfg, ops).activated
    ensures ActivationConsistent(r) ==> ActivationConsistent(Run(r, h, cfg, ops))
    decreases |ops|
  {
    if ops != [] {
      StepKeepsActivation(r, h, cfg, ops[0]);
      RunKeepsActivation(Apply(r, h, cfg, ops[0]), h, cfg, ops[1..]);
    }
  }

  // -------------------------------------------------------- password reset

  /** `create_reset_digest` on a saved record: the kept token authenticates
      for reset, and the earlier reset state is gone. */
  lemma ResetAuthenticates(r: Record, h: Hasher, token: string, now: int)
    requires Sound(h) && !r.newRecord
    ensures CreateResetDigestStep(r, h, token, now).resetToken == Some(token)
    ensures CreateResetDigestStep(r, h, token, now).resetSentAt == Some(now)
    ensures Authenticated(CreateResetDigestStep(r, h, token, now), h, ForReset, token)
  {
  }

  /** With an exact hash, the newest reset token is the only one accepted:
      issuing a new one invalidates every earlier one. */
  lemma ResetTokenIsOnlyKey(r: Record, h: Hasher, token: string, now: int, other: string)
    requires Exact(h) && !r.newRecord
    ensures Authenticated(CreateResetDigestStep(r, h, token, now), h, ForReset, other) <==> other == token
  {
  }

  /** `create_reset_digest` changes the reset token, digest and time only. */
  lemma ResetFrame(r: Record, h: Hasher, token: string, now: int)
    ensures CreateResetDigestStep(r, h, token, now).(resetToken := r.resetToken,
      resetDigest := r.resetDigest, resetSentAt := r.resetSentAt) == r
  {
  }

  /** A reset checked at its own issue time is not expired when the window is
      not negative. */
  lemma ResetNotExpiredAtIssue(r: Record, h: Hasher, cfg: Config, token: string, now: int)
    requires !r.newRecord && cfg.expirationHours >= 0
    ensures PasswordResetExpired(CreateResetDigestStep(r, h, token, now), cfg, now) == Some(false)
  {
  }

  /** The comparison is strict: exactly one window after issue the reset is
      still good, one second later it has expired. */
  lemma ResetExpiryBoundary(r: Record, h: Hasher, cfg: Config, token: string, sentAt: int)
    requires !r.newRecord
    ensures var w := cfg.expirationHours * SecondsPerHour;
      var after := CreateResetDigestStep(r, h, token, sentAt);
      PasswordResetExpired(after, cfg, sentAt + w) == Some(false)
      && PasswordResetExpired(after, cfg, sentAt + w + 1) == Some(true)
  {
  }

  /** Once expired, a reset stays expired as time goes on. */
  lemma ExpiryIsMonotone(r: Record, cfg: Config, now: int, later: int)
    requires now <= later && PasswordResetExpired(r, cfg, now) == Some(true)
    ensures PasswordResetExpired(r, cfg, later) == Some(true)
  {
  }

  // ---------------------------------------------------------------- saving

  /** A saved record's email is lowercase; validation is what lets the save
      through. */
  lemma SaveLowercasesEmail(r: Record, h: Hasher, cfg: Config, token: string)
    requires Valid(r, cfg)
    ensures SaveStep(r, h, cfg, token).email == Some(Lower(r.email.value))
    ensures IsLowercase(SaveStep(r, h, cfg, token).email.value)
  {
    LowerIsLowercase(r.email.value);
  }

  /** Saving again changes nothing: the email is already lowercase and the
      record is no longer new, so neither hook has anything left to do. */
  lemma SaveIdempotent(r: Record, h: Hasher, cfg: Config, token: string, token2: string)
    ensures SaveStep(SaveStep(r, h, cfg, token), h, cfg, token2) == SaveStep(r, h, cfg, token)
  {
    if Valid(r, cfg) {
      LowerIdempotent(r.email.value);
    }
  }

  /** Every inserted record holds a lowercase email. */
  predicate EmailLowercaseAtRest(r: Record) {
    !r.newRecord ==> r.email.Some? && IsLowercase(r.email.value)
  }

  /** No operation breaks "email is lowercase at rest": only saving touches the
      email or inserts the record, and it lowercases the email first. */
  lemma StepKeepsEmailLowercase(r: Record, h: Hasher, cfg: Config, op: Op)
    requires EmailLowercaseAtRest(r)
    ensures EmailLowercaseAtRest(Apply(r, h, cfg, op))
  {
    if op.DoSave? && Valid(r, cfg) {
      LowerIsLowercase(r.email.value);
    }
  }

  /** The email is lowercase at rest after any sequence of operations that
      starts from a record not inserted yet or from one that already keeps it. */
  lemma {:induction false} RunKeepsEmailLowercase(r: Record, h: Hasher, cfg: Config, ops: seq<Op>)
    requires EmailLowercaseAtRest(r)
    ensures EmailLowercaseAtRest(Run(r, h, cfg, ops))
    decreases |ops|
  {
    if ops != [] {
      StepKeepsEmailLowercase(r, h, cfg, ops[0]);
      RunKeepsEmailLowercase(Apply(r, h, cfg, ops[0]), h, cfg, ops[1..]);
    }
  }

  /** Lowercasing keeps the name and password rules and the email's length
      and presence; the email stays valid when the format accepts its
      lowercase form. */
  lemma DowncaseKeepsValidity(r: Record, cfg: Config)
    requires Valid(r, cfg) && cfg.emailFormat(Lower(r.email.value))
    ensures Valid(DowncaseEmailStep(r), cfg)
  {
    LowerKeepsPresence(r.email.value);
  }
}
