# mern-auth: the account record state machine

This project models the authentication controller of a small Express/MongoDB
authentication backend. The controller keeps a store of user records, one per
email. Each record holds a bcrypt password digest, the `isAccountVerified`
flag and two independent one-time-passcode (OTP) channels:
`verifyOtp`/`verifyOtpExpiry` for account verification and
`resetOtp`/`resetOtpExpiry` for password reset. Seven handlers move records
between states:

- `register` inserts a record;
- `login` reads one;
- `logout` and `isAuthenticated` touch nothing;
- `sendVerifyOtp` and `sendResetOtp` arm a channel;
- `verifyAccount` and `resetPassword` consume a channel.

The user controller's `getUserData` is a read-only projection of a record to
its public fields.

Layout, one module per concern:

- `wrappers.dfy` (`Wrappers`): `Option`.
- `crypto.dfy` (`Crypto`): bcrypt seen only through its contract. A `Hasher`
  carries `hash(password, salt)` and `compare(password, digest)`. `Sound`
  (a password matches its own digest) is assumed only by the lemmas that
  need it.
- `otp.dfy` (`Otp`): the code range, the stored decimal string and its
  inverse, the two lifetimes (24 h and 15 min in milliseconds), and the
  acceptance rule `Accepts` with its strict `expiry < now` test.
- `user_model.dfy` (`UserModel`): the record, the store (`seq<User>`, where a
  record's id is its position), `findOne({ email })` as `FindByEmail`, and
  the store invariant.
- `auth_spec.dfy` (`AuthSpec`): each handler as a function from the store
  before the request to the store after it, the `{ success, message }`
  envelope with its HTTP status, and the effect on the `token` cookie.
- `auth_controller.dfy` (`AuthController`): the class `AuthService`. It holds
  the store. Its methods run each guard chain with early returns, copy the
  record they found, assign its fields one by one and save it back. Each
  method is proved equal to its `AuthSpec` function and keeps the store
  invariant.
- `user_controller.dfy` (`UserController`): `getUserData`.
- `auth_properties.dfy` (`AuthProperties`): properties across several calls
  and over any sequence of requests.

Inputs supplied by the environment are parameters:

- the clock `now`;
- the drawn six-digit code (required to be in 100000..999999, the range
  `Math.floor(100000 + Math.random() * 900000)` yields);
- the bcrypt salt;
- whether sending mail succeeded;
- the user id attached by the session guard (`middleware/userauth.js:15`),
  as an `Option`.

An absent request field and an empty string are the same to every guard
(`!x` is true for both), so an absent field is modelled as `""`.

The schema file is not part of this model. `UserModel.NewUser` states the
assumed defaults of a new record: not verified, both codes `""`, both
expiries `0`.

Three behaviours of the code worth knowing:

- Registration mail failure is not swallowed. After the record is saved
  (`controllers/auth.controller.js:29`) and the cookie is set (`:35-40`), a
  failing `sendMail` (`:49`) lands in the catch block (`:52-58`). The reply is
  then `success: false`, "Registration Failed", status 200, while the record
  and the cookie stay. `sendVerifyOtp` and `sendResetOtp` behave the same
  way: the code is saved before the mail fails.
- `sendVerifyOtp` does not check that the user exists. For an unknown or
  absent id, reading `user.isAccountVerified` on `null` throws. The catch
  block then answers status 200, `success: false`, "Failed to send OTP".
- OTP consumption is a plain read, check and save, with no atomic
  compare-and-swap. The model is sequential.

## Model

| member | source | states |
|---|---|---|
| `Otp.CodeString` | controllers/auth.controller.js:136 | the stored code string is non-empty, six decimal digits, and parses back to the drawn number |
| `Otp.ParseDecimalOfDecimal` | controllers/auth.controller.js:136 | parsing the decimal rendering of a code gives the code back (round trip) |
| `Otp.DecimalInjective` | controllers/auth.controller.js:136 | two different codes never render to the same string |
| `Otp.DecimalLength` | controllers/auth.controller.js:136 | a number with k + 1 decimal digits renders to k + 1 characters |
| `UserModel.Known` | controllers/auth.controller.js:174-175 | definition: `findById` finds a record iff the id is present and below the store's size (also at controllers/auth.controller.js:128 and controllers/user.controller.js:7); what holds of found records is proved in the `AuthSpec` contracts (`success <==> Known(..) && Accepts(..)` in `VerifyAccount`) and in `RunExtends` |
| `UserModel.NewUser` | controllers/auth.controller.js:24-28 | a new record carries the given name, email and digest, is not verified, and holds no code that any OTP can be accepted against (assumed schema defaults) |
| `Otp.Accepts` | controllers/auth.controller.js:180-185 | definition of the consume guard shared by controllers/auth.controller.js:180-185 and :279-285 (non-empty, equal, not `expiry < now`); its boundary is proved in `Otp.AcceptsUntilExpiry`, and its use as the exact success condition in the `success <==>` clauses of `AuthSpec.VerifyAccount` and `AuthSpec.ResetPassword` |
| `Otp.AcceptsUntilExpiry` | controllers/auth.controller.js:183 | a code accepted at some time is accepted at its expiry instant, and nothing is accepted one millisecond after expiry |
| `UserModel.FindByEmail` | controllers/auth.controller.js:17 | `findOne({ email })` returns the first record holding exactly that email, and nothing iff no record holds it |
| `AuthSpec.Register` | controllers/auth.controller.js:10-59 | "Missing Details" iff a field is missing; a taken email gives 400 "User Already Exists"; both 400 paths leave the store and cookie alone; otherwise exactly one record with the name, email, a digest of the password and the schema defaults is appended and a token for it is issued, and the reply is "Registration Successful" if the mail went out and status 200, `success: false`, "Registration Failed" if it did not; the store invariant (unique emails) is kept |
| `AuthSpec.Login` | controllers/auth.controller.js:61-104 | the store is never written; missing fields give 400; an unknown email and a wrong password give the identical 400 "Invalid email or password"; with unique emails, success iff some record has that email and its digest matches, and the token names that record |
| `AuthSpec.Logout` | controllers/auth.controller.js:106-121 | always succeeds, clears the cookie, store unchanged |
| `AuthSpec.IsAuthenticated` | controllers/auth.controller.js:203-216 | always succeeds, store and cookie unchanged |
| `AuthSpec.SendVerifyOtp` | controllers/auth.controller.js:124-164 | unknown user: caught failure, store unchanged; verified account: "Account is already verified", store unchanged; otherwise only that record's verify code and expiry change, to the six-digit code and now + 24 h, overwriting any earlier code and leaving the reset fields, and the reply is "OTP sent to your email for account verification" if mailed, else status 200 "Failed to send OTP"; invariant kept |
| `AuthSpec.VerifyAccount` | controllers/auth.controller.js:167-201 | guards in order: missing, "User not found", "Invalid OTP" (empty or mismatched, before expiry), "OTP Expired" (strict `<`); success iff the record exists and the code is accepted; every failure leaves the store unchanged; success replies "Account Verified Successfully", sets the flag, clears the verify code and expiry, and changes nothing else |
| `AuthSpec.SendResetOtp` | controllers/auth.controller.js:219-263 | missing email gives 400 "Email is required"; unknown email gives 400 "User not found", store unchanged; otherwise only the found record's reset code and expiry change, to the code and now + 15 min, whatever the verified flag, and the reply is "Password reset OTP sent to your email" if mailed, else status 200 "Failed to send password reset OTP"; invariant kept |
| `AuthSpec.ResetPassword` | controllers/auth.controller.js:266-306 | the same guard order as verification on the reset channel; success iff the record exists and its reset code is accepted; failures leave the store unchanged; success replies "Password Reset Successfully", replaces the digest with one of the new password, clears the reset code and expiry, and leaves the verify fields and flag |
| `AuthController.AuthService.Register` | controllers/auth.controller.js:10-59 | the step-by-step handler leaves the store, reply and cookie that `AuthSpec.Register` describes, and keeps the store invariant |
| `AuthController.AuthService.Login` | controllers/auth.controller.js:61-104 | the handler reads only, and replies as `AuthSpec.Login` describes |
| `AuthController.AuthService.Logout` | controllers/auth.controller.js:106-121 | replies success and clears the cookie, as `AuthSpec.Logout` |
| `AuthController.AuthService.IsAuthenticated` | controllers/auth.controller.js:203-216 | replies success, as `AuthSpec.IsAuthenticated` |
| `AuthController.AuthService.SendVerifyOtp` | controllers/auth.controller.js:124-164 | assigns the code and expiry on a copy of the record and saves it, matching `AuthSpec.SendVerifyOtp`; invariant kept |
| `AuthController.AuthService.VerifyAccount` | controllers/auth.controller.js:167-201 | runs the four guards, then sets the flag and clears the code field by field, matching `AuthSpec.VerifyAccount`; invariant kept |
| `AuthController.AuthService.SendResetOtp` | controllers/auth.controller.js:219-263 | assigns the reset code and expiry and saves, matching `AuthSpec.SendResetOtp`; invariant kept |
| `AuthController.AuthService.ResetPassword` | controllers/auth.controller.js:266-306 | runs the guards, stores the new digest and clears the reset code field by field, matching `AuthSpec.ResetPassword`; invariant kept |
| `UserController.GetUserData` | controllers/user.controller.js:3-30 | success iff the id names a record; otherwise 400 "User not found"; on success `userData` is exactly the record's name, email and verified flag; no store is returned, so the query writes nothing |
| `UserController.SecretsNotDisclosed` | controllers/user.controller.js:7-21 | the reply is the same for any two stores that differ only in password digests and OTP fields, so none of them is disclosed |
| `AuthProperties.VerifyReplayFails` | controllers/auth.controller.js:180-189 | a code that verified an account fails as "Invalid OTP" when replayed, at any later time |
| `AuthProperties.ResetReplayFails` | controllers/auth.controller.js:279-293 | a code that reset a password fails as "Invalid OTP" when replayed |
| `AuthProperties.VerifyExpiryBoundary` | controllers/auth.controller.js:136-185 | a fresh verification code is accepted exactly 24 h after it was sent and expired one millisecond later |
| `AuthProperties.ResetExpiryBoundary` | controllers/auth.controller.js:233-285 | a fresh reset code is accepted exactly 15 min after it was sent and expired one millisecond later |
| `AuthProperties.ReissueRevokesVerifyCode` | controllers/auth.controller.js:136-139 | after a second, different verification code is sent, the first one is an invalid code |
| `AuthProperties.SendResetKeepsVerifyDecision` | controllers/auth.controller.js:235-238 | sending a reset code does not change the outcome of any account verification |
| `AuthProperties.ResetKeepsVerifyDecision` | controllers/auth.controller.js:288-293 | resetting a password does not change the outcome of any account verification |
| `AuthProperties.SendVerifyKeepsResetDecision` | controllers/auth.controller.js:137-139 | sending a verification code does not change the outcome of any password reset |
| `AuthProperties.VerifyKeepsResetDecision` | controllers/auth.controller.js:186-189 | verifying an account does not change the outcome of any password reset |
| `AuthProperties.SameEmailsSameLookup` | controllers/auth.controller.js:227 | two stores with the same emails at the same positions give the same email lookup |
| `AuthProperties.RegisterThenLogin` | controllers/auth.controller.js:23-86 | right after a registration, its email and password log in as the new record |
| `AuthProperties.RegisterThenGetUserData` | controllers/auth.controller.js:24-29 | right after a registration the new record reads back with its name and email, not yet verified |
| `AuthProperties.ResetThenLogin` | controllers/auth.controller.js:287-288 | after a reset the new password logs in, and any password logs in iff it is present and `compare` accepts it against the digest of the new password (so an old password works only where the hash confuses it with the new one) |
| `AuthProperties.HandleStep` | controllers/auth.controller.js:186 | every request keeps the store invariant, removes no record, changes no name or email, and never clears the verified flag; only an accepted `verifyAccount` for that record sets it |
| `AuthProperties.RunKeepsInvariant` | controllers/auth.controller.js:17-29 | every sequence of requests keeps emails unique and non-empty and every stored code empty or six digits |
| `AuthProperties.RunExtends` | controllers/auth.controller.js:186 | over every sequence of requests, records are never removed, names and emails never change, and the verified flag is monotone |

## Left out

- JSON Web Tokens: signing, verification, the 7-day expiry and the cookie
  options (`httpOnly`, `secure`, `sameSite`, `maxAge`). A token is modelled
  as the user id it carries (`Cookie.IssueToken`). The session guard
  (`middleware/userauth.js`) appears only as the `userId` input.
- bcrypt internals: hashing and comparison are the abstract `Hasher`.
  bcrypt reads only the first 72 bytes of a password, so two passwords that
  share those bytes match the same digest; the model assumes nothing about
  which other passwords `compare` accepts, and `ResetThenLogin` states the
  login outcome of an old password only relative to `compare`. Its
  salt, drawn at random in the source, is a parameter.
- `Math.random()` and `Date.now()`: the code and the clock are parameters.
  Date arithmetic is on unbounded integers; the floating-point precision of
  JavaScript numbers is not modelled.
- Mail: the template substitution and the transport are out of scope. Only
  whether sending succeeded is an input.
- Catch blocks reached by database or driver failures are not modelled:
  "Login Failed" with status 500, "Account Verification Failed",
  "Password Reset Failed", "Logout Failed", "Failed to fetch user data" and
  the catch of `register` on a failing save. The store is treated as
  infallible. The catch paths for a failed mail and for a null record in
  `sendVerifyOtp` are modelled.
- The `error` field that catch blocks add to the envelope is not modelled.
- A malformed id string (a cast error in the database driver) is not
  modelled. An id comes from a signed token, and an id naming no record is
  modelled.
- Request bodies whose fields are not strings (numbers, objects) are not
  modelled. Every field is a string.
- Concurrency: handlers are modelled as running one at a time. Consuming an
  OTP is not atomic in the source, so two simultaneous verifications with one
  code are not covered.
- Express wiring, routes and all client code are out of scope.
