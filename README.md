# User credential and token lifecycle

A Dafny model of the `User` record of a Rails sample application
(`app/models/user.rb`). It covers the credential and token lifecycle:
- "remember me" (`remember`, `forget`);
- account activation (the `create_activation_digest` before-create hook, `activate`);
- password reset (`create_reset_digest`, `password_reset_expired?`);
- the shared check `authenticated?`;
- the `downcase_email` before-save hook;
- the validation rules for name, email and password.

Files:
- `credentials.dfy` (module `Credentials`): the hashing library as a parameter.
  It is a `Hasher` value holding `digest` and `verify` functions. The library's
  one promise, `verify(s, digest(s))`, is the hypothesis `Sound`. `Exact` is the
  stronger hypothesis that a digest accepts nothing but its own secret.
- `text.dfy` (module `Text`): ASCII lowercasing (`downcase!`) and the blank test
  used by the `presence` validations.
- `user_state.dfy` (module `UserState`): the record as a value. It holds the two
  queries, the validation rules, and one transition function per operation. The
  lemmas relate these, alone and over any sequence of operations (`Run`).
- `user.dfy` (module `Users`): class `User`, whose methods update the attributes
  in place. Each method's `ensures` equates the new `State()` with the matching
  transition of the old state.

Time is whole seconds, passed in as `now`. Fresh tokens are passed in as
`token`. Settings are an explicit `Config` value. A column write refuses a
record that has not been inserted yet. The model returns `ok == false` for
that case, and the in-memory token assignment made before the write still
takes effect.

Behaviour worth noting:
- `authenticated?` returns false for a nil digest. Any other digest, an empty
  string included, goes to the hash check: `Authenticated` answers
  `verify(token, "")` for `Some("")`.
- `password_reset_expired?` on a user with no `reset_sent_at` raises an
  error. `PasswordResetExpired` returns `None` there.
- The activation digest is assigned in memory by the before-create hook and
  written with the insert, not by a separate column update.

## Model

| member | source | states |
|---|---|---|
| `Text.Lower` | app/models/user.rb:76-78 | the lowercased email has the same length and each character lowered, non-letters kept |
| `Text.LowerIsLowercase` | app/models/user.rb:76-78 | no capital letter remains after lowercasing |
| `Text.LowerFixesExactlyLowercase` | app/models/user.rb:76-78 | lowercasing leaves a string unchanged exactly when it has no capital (both directions) |
| `Text.LowerIdempotent` | app/models/user.rb:76-78 | lowercasing twice equals lowercasing once |
| `Text.LowerKeepsPresence` | app/models/user.rb:11-15 | an email passes the presence check after lowercasing iff it did before |
| `Text.LowerExample` | app/models/user.rb:76-78 | "Foo@Bar.com" is stored as "foo@bar.com" |
| `UserState.Authenticated` | app/models/user.rb:46-51 | false whenever the digest for the purpose is nil, whatever the token; otherwise exactly the hash's verify of the token against that digest |
| `UserState.PasswordResetExpired` | app/models/user.rb:71-73 | defined iff a reset was sent; expired iff now is strictly past sent time plus the window in seconds |
| `Text.LowerChar` | app/models/user.rb:76-78 | a lowered character is never a capital; non-capitals are kept; capitals map to the matching small letter |
| `Text.Blank` | app/models/user.rb:9-16 | a string is blank when it is empty or holds only whitespace |
| `Text.Present` | app/models/user.rb:9-16 | the presence validation accepts exactly the strings that are not blank |
| `UserState.NameValid` | app/models/user.rb:9-10 | a name is present and no longer than the maximum |
| `UserState.EmailValid` | app/models/user.rb:11-15 | an email is present, its length is within the minimum and maximum, and it has the configured format |
| `UserState.PasswordValid` | app/models/user.rb:16-17 | a given password is present and at least the minimum length; no password is not checked |
| `UserState.Valid` | app/models/user.rb:9-17 | a user is valid when the name, email and password rules all hold |
| `UserState.RememberStep` | app/models/user.rb:41-44 | the effect of `remember`: the token is kept, and on a saved user its digest is written |
| `UserState.ForgetStep` | app/models/user.rb:37-39 | the effect of `forget`: on a saved user the remember digest is cleared |
| `UserState.ActivateStep` | app/models/user.rb:57-59 | the effect of `activate`: on a saved user activated and activated_at are set |
| `UserState.CreateResetDigestStep` | app/models/user.rb:61-65 | the effect of `create_reset_digest`: the token is kept, and on a saved user its digest and the sent time are written |
| `UserState.DowncaseEmailStep` | app/models/user.rb:76-78 | the effect of `downcase_email`: the email is replaced by its lowercase form |
| `UserState.CreateActivationDigestStep` | app/models/user.rb:80-83 | the effect of `create_activation_digest`: the activation token is kept and its digest stored |
| `UserState.SaveStep` | app/models/user.rb:6-17 | the effect of `save`: an invalid user is unchanged; a valid one is lowercased, and a new one also gets its activation digest and is inserted |
| `UserState.PasswordCheckedOnlyWhenGiven` | app/models/user.rb:16-17 | without a password, validity is the name and email rules alone |
| `UserState.BlankPasswordRejected` | app/models/user.rb:16-17 | a given empty or blank password makes the user invalid |
| `UserState.ValidBounds` | app/models/user.rb:9-17 | a valid user has a non-empty name within its maximum, an email within its bounds, and a given password of at least the minimum length |
| `UserState.RememberAuthenticates` | app/models/user.rb:41-44 | after `remember` on a saved user, the kept token authenticates for remember |
| `UserState.RememberTokenIsOnlyKey` | app/models/user.rb:41-50 | with an exact hash, a token authenticates for remember iff it is the newest one |
| `UserState.RememberFrame` | app/models/user.rb:41-44 | `remember` changes only the remember token and digest; on an unsaved user the digest is unchanged |
| `UserState.ForgetDeauthenticates` | app/models/user.rb:37-39 | after `forget` on a saved user no token authenticates for remember |
| `UserState.ForgetFrame` | app/models/user.rb:37-39 | `forget` changes only the remember digest |
| `UserState.RememberDigestOnlyByRemember` | app/models/user.rb:37-83 | over any run without `remember`, a nil remember digest stays nil |
| `UserState.ForgottenStaysForgotten` | app/models/user.rb:37-51 | after `forget`, no remember token authenticates until the next `remember`, whatever else runs |
| `UserState.ActivateEffect` | app/models/user.rb:57-59 | `activate` sets activated and activated_at to now and leaves every other field unchanged |
| `UserState.SaveCreatesActivationDigest` | app/models/user.rb:7 | saving a new valid user stores the activation digest of the kept token, leaves activated alone and inserts the user |
| `UserState.CreatedUserNotActivated` | app/models/user.rb:80-83 | a user just created is not activated |
| `UserState.StepKeepsActivation` | app/models/user.rb:57-59 | no operation deactivates a user or breaks "activated implies activated_at set" |
| `UserState.RunKeepsActivation` | app/models/user.rb:57-59 | activation is one-way, and the consistency invariant holds, over any sequence of operations |
| `UserState.ResetAuthenticates` | app/models/user.rb:61-65 | after `create_reset_digest` on a saved user, the kept token authenticates for reset and the sent time is now |
| `UserState.ResetTokenIsOnlyKey` | app/models/user.rb:61-65 | with an exact hash, a token authenticates for reset iff it is the newest one |
| `UserState.ResetFrame` | app/models/user.rb:61-65 | `create_reset_digest` changes only the reset token, digest and sent time |
| `UserState.ResetNotExpiredAtIssue` | app/models/user.rb:61-73 | with a non-negative window, a reset checked at its issue time is not expired |
| `UserState.ResetExpiryBoundary` | app/models/user.rb:71-73 | exactly one window after issue the reset is not expired; one second later it is |
| `UserState.ExpiryIsMonotone` | app/models/user.rb:71-73 | once expired, a reset stays expired at every later time |
| `UserState.SaveLowercasesEmail` | app/models/user.rb:6 | a successful save stores the lowercase email |
| `UserState.SaveIdempotent` | app/models/user.rb:6-7 | saving a second time changes nothing, whatever token is offered |
| `UserState.StepKeepsEmailLowercase` | app/models/user.rb:6 | no operation breaks "every inserted user has a lowercase email" |
| `UserState.RunKeepsEmailLowercase` | app/models/user.rb:6 | the email is lowercase at rest after any sequence of operations |
| `UserState.DowncaseKeepsValidity` | app/models/user.rb:9-17 | lowercasing keeps a valid user valid when the format accepts the lowercase email |
| `Users.User.constructor` | app/models/user.rb:1-3 | a new user has only name, email and password set, and is not yet inserted |
| `Users.User.Remember` | app/models/user.rb:41-44 | keeps the token; on a saved user writes its digest, and the token then authenticates |
| `Users.User.Forget` | app/models/user.rb:37-39 | on a saved user clears the remember digest; no token then authenticates |
| `Users.User.Activate` | app/models/user.rb:57-59 | on a saved user sets activated and activated_at to now |
| `Users.User.CreateResetDigest` | app/models/user.rb:61-65 | keeps the token; on a saved user writes its digest and the sent time, and the token then authenticates |
| `Users.User.DowncaseEmail` | app/models/user.rb:76-78 | lowercases the email in place |
| `Users.User.CreateActivationDigest` | app/models/user.rb:80-83 | keeps the activation token and stores its digest, leaving activated alone |
| `Users.User.Save` | app/models/user.rb:6-17 | saves iff the user is valid; then lowercases the email, runs the activation hook for a new user and inserts it |

## Left out

- Password hashing (`has_secure_password`, the BCrypt cost selection in `User.digest`): foreign library code. Its digest and verify functions are the `Hasher` parameter. The library's behaviour enters only as the hypotheses `Sound` and `Exact`. `password_digest` and the hashing's own validations (confirmation, maximum byte length) are not modelled.
- `UserState.Valid`: leaves out the validation added by `has_secure_password`, which refuses any save without a `password_digest`. It also leaves out that the `password=` setter ignores an empty string, so an empty password is never stored. In the source, saving a user created without a password therefore fails. `SaveStep` inserts such a user when its name and email are valid. `BlankPasswordRejected` still covers a given all-whitespace password.
- `Hasher.digest` is a deterministic function. BCrypt adds a random salt on every call, so two digests of the same secret differ. No proved property depends on digests being equal; the lemmas compare through `verify` only.
- `User.new_token` (random URL-safe Base64 per section 5 of RFC 4648): randomness cannot be modelled. Each token is a method parameter.
- `Time.zone.now`: the current time is a parameter in whole seconds. The `.hours.ago` arithmetic becomes `now - hours * 3600`.
- `Settings` lookups: they are the explicit `Config`. The email regular expression is the abstract predicate `Config.emailFormat`.
- Persistence: the database write itself, `has_many :microposts`, the `latest_users` scope, and the error on a destroyed record are not modelled. A column write refusing an unsaved record is modelled, as `ok == false`.
- Mail delivery (`send_mail_active`, `send_password_reset_email`): I/O.
- `authenticated?` with the purpose password: it reads `password_digest`, which is not modelled. Any purpose other than remember, activation, reset or password raises an error in Ruby. The `Purpose` type rules both out.
- The hash library raises on a malformed stored digest. `verify` is total here.
- `Text.Lower`: lowercases ASCII letters only, not Ruby's full Unicode case mapping. It also does not model the in-place mutation of a string object shared with other references.
- `Text.Blank`: treats only ASCII whitespace as blank, where the framework also treats Unicode spaces as blank.
- `Users.User.DowncaseEmail`: requires an email. On a nil email the source raises, but saving runs the hook only after validation has required an email.
