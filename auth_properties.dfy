/**
 * Properties that relate several handler calls: one-time use of a code, the
 * strict expiry boundary, re-issue revoking the previous code, the two OTP
 * channels not interfering, passwords after registration and reset, and the
 * invariants kept by every sequence of requests.
 */
module AuthProperties {
  import opened Wrappers
  import opened Crypto
  import opened Otp
  import opened UserModel
  import AuthSpec
  import UserController

  // ---------------------------------------------------------------------
  // One-time use and expiry

  /** A code that verified an account is spent: replaying it is an invalid code. */
  lemma VerifyReplayFails(db: Store, userId: Option<Id>, otp: string, now: int, later: int)
    requires AuthSpec.VerifyAccount(db, userId, otp, now).response.success
    ensures AuthSpec.VerifyAccount(AuthSpec.VerifyAccount(db, userId, otp, now).db, userId, otp, later).response
              == AuthSpec.Reject("Invalid OTP")
  {
  }

  /** A code that reset a password is spent: replaying it is an invalid code. */
  lemma ResetReplayFails(h: Hasher, db: Store, email: string, otp: string, pw: string, salt: Salt, now: int,
                         pw2: string, salt2: Salt, later: int)
    requires AuthSpec.ResetPassword(h, db, email, otp, pw, salt, now).response.success
    requires pw2 != ""
    ensures AuthSpec.ResetPassword(h, AuthSpec.ResetPassword(h, db, email, otp, pw, salt, now).db,
                                   email, otp, pw2, salt2, later).response
              == AuthSpec.Reject("Invalid OTP")
  {
    var db' := AuthSpec.ResetPassword(h, db, email, otp, pw, salt, now).db;
    SameEmailsSameLookup(db, db', email);
  }

  /**
   * A freshly sent verification code is accepted up to and including its
   * expiry instant (the comparison is a strict `<`) and is expired one
   * millisecond later.
   */
  lemma VerifyExpiryBoundary(db: Store, userId: Option<Id>, code: nat, sentAt: int, mailOk: bool)
    requires ValidCode(code) && Known(db, userId) && !db[userId.value].isAccountVerified
    ensures var db' := AuthSpec.SendVerifyOtp(db, userId, code, sentAt, mailOk).db;
            AuthSpec.VerifyAccount(db', userId, CodeString(code), sentAt + VerifyOtpLifetime).response.success &&
            AuthSpec.VerifyAccount(db', userId, CodeString(code), sentAt + VerifyOtpLifetime + 1).response
              == AuthSpec.Reject("OTP Expired")
  {
  }

  /** The same boundary for a reset code, fifteen minutes after it is sent. */
  lemma ResetExpiryBoundary(h: Hasher, db: Store, email: string, code: nat, sentAt: int, mailOk: bool,
                            newPassword: string, salt: Salt)
    requires ValidCode(code) && email != "" && EmailTaken(db, email) && newPassword != ""
    ensures var db' := AuthSpec.SendResetOtp(db, email, code, sentAt, mailOk).db;
            AuthSpec.ResetPassword(h, db', email, CodeString(code), newPassword, salt,
                                   sentAt + ResetOtpLifetime).response.success &&
            AuthSpec.ResetPassword(h, db', email, CodeString(code), newPassword, salt,
                                   sentAt + ResetOtpLifetime + 1).response
              == AuthSpec.Reject("OTP Expired")
  {
    var db' := AuthSpec.SendResetOtp(db, email, code, sentAt, mailOk).db;
    SameEmailsSameLookup(db, db', email);
  }

  /** Sending a second, different verification code revokes the first one. */
  lemma ReissueRevokesVerifyCode(db: Store, userId: Option<Id>, code1: nat, code2: nat,
                                 t1: int, t2: int, now: int, mail1: bool, mail2: bool)
    requires ValidCode(code1) && ValidCode(code2) && code1 != code2
    requires Known(db, userId) && !db[userId.value].isAccountVerified
    ensures var db1 := AuthSpec.SendVerifyOtp(db, userId, code1, t1, mail1).db;
            var db2 := AuthSpec.SendVerifyOtp(db1, userId, code2, t2, mail2).db;
            AuthSpec.VerifyAccount(db2, userId, CodeString(code1), now).response == AuthSpec.Reject("Invalid OTP")
  {
    DecimalInjective(code1, code2);
  }

  // ---------------------------------------------------------------------
  // The two channels do not interfere

  /** Sending a reset code changes nothing that `verifyAccount` decides on. */
  lemma SendResetKeepsVerifyDecision(db: Store, email: string, code: nat, t: int, mailOk: bool,
                                     userId: Option<Id>, otp: string, now: int)
    requires ValidCode(code)
    ensures AuthSpec.VerifyAccount(AuthSpec.SendResetOtp(db, email, code, t, mailOk).db, userId, otp, now).response
              == AuthSpec.VerifyAccount(db, userId, otp, now).response
  {
    var db' := AuthSpec.SendResetOtp(db, email, code, t, mailOk).db;
    if Known(db, userId) {
      assert db'[userId.value].verifyOtp == db[userId.value].verifyOtp;
    }
  }

  /** Resetting a password changes nothing that `verifyAccount` decides on. */
  lemma ResetKeepsVerifyDecision(h: Hasher, db: Store, email: string, rotp: string, pw: string, salt: Salt,
                                 t: int, userId: Option<Id>, otp: string, now: int)
    ensures AuthSpec.VerifyAccount(AuthSpec.ResetPassword(h, db, email, rotp, pw, salt, t).db, userId, otp, now).response
              == AuthSpec.VerifyAccount(db, userId, otp, now).response
  {
    var db' := AuthSpec.ResetPassword(h, db, email, rotp, pw, salt, t).db;
    if Known(db, userId) {
      assert db'[userId.value].verifyOtp == db[userId.value].verifyOtp;
    }
  }

  /** Sending a verification code changes nothing that `resetPassword` decides on. */
  lemma SendVerifyKeepsResetDecision(h: Hasher, db: Store, userId: Option<Id>, code: nat, t: int, mailOk: bool,
                                     email: string, otp: string, pw: string, salt: Salt, now: int)
    requires ValidCode(code)
    ensures AuthSpec.ResetPassword(h, AuthSpec.SendVerifyOtp(db, userId, code, t, mailOk).db, email, otp, pw, salt, now).response
              == AuthSpec.ResetPassword(h, db, email, otp, pw, salt, now).response
  {
    var db' := AuthSpec.SendVerifyOtp(db, userId, code, t, mailOk).db;
    SameEmailsSameLookup(db, db', email);
  }

  /** Verifying an account changes nothing that `resetPassword` decides on. */
  lemma VerifyKeepsResetDecision(h: Hasher, db: Store, userId: Option<Id>, votp: string, t: int,
                                 email: string, otp: string, pw: string, salt: Salt, now: int)
    ensures AuthSpec.ResetPassword(h, AuthSpec.VerifyAccount(db, userId, votp, t).db, email, otp, pw, salt, now).response
              == AuthSpec.ResetPassword(h, db, email, otp, pw, salt, now).response
  {
    var db' := AuthSpec.VerifyAccount(db, userId, votp, t).db;
    SameEmailsSameLookup(db, db', email);
  }

  /** Two stores with the same emails at the same positions answer `findOne` alike. */
  lemma {:induction false} SameEmailsSameLookup(db: Store, db': Store, email: string)
    requires |db| == |db'| && forall i :: 0 <= i < |db| ==> db[i].email == db'[i].email
    ensures FindByEmail(db, email) == FindByEmail(db', email)
  {
    if |db| > 0 {
      SameEmailsSameLookup(db[1..], db'[1..], email);
    }
  }

  // ---------------------------------------------------------------------
  // Passwords

  /** Right after a registration, its email and password log in as the new record. */
  lemma RegisterThenLogin(h: Hasher, db: Store, name: string, email: string, password: string,
                          salt: Salt, mailOk: bool)
    requires Sound(h)
    requires AuthSpec.Register(h, db, name, email, password, salt, mailOk).response.status != 400
    ensures var db' := AuthSpec.Register(h, db, name, email, password, salt, mailOk).db;
            AuthSpec.Login(h, db', email, password) ==
              AuthSpec.Step(db', AuthSpec.Ok("Login Successful"), AuthSpec.IssueToken(|db|))
  {
    var db' := AuthSpec.Register(h, db, name, email, password, salt, mailOk).db;
    assert db'[|db|].email == email;
  }

  /**
   * Right after a registration the new record reads back with its name and
   * email and as not yet verified.
   */
  lemma RegisterThenGetUserData(h: Hasher, db: Store, name: string, email: string, password: string,
                                salt: Salt, mailOk: bool)
    requires AuthSpec.Register(h, db, name, email, password, salt, mailOk).response.status != 400
    ensures var db' := AuthSpec.Register(h, db, name, email, password, salt, mailOk).db;
            UserController.GetUserData(db', Some(|db|)).userData
              == Some(UserController.UserData(name, email, false))
  {
  }

  /**
   * After a successful reset a password logs in exactly when it is present
   * and matches the digest of the new password; in particular the new
   * password does, and an old one does only if the hash confuses the two.
   */
  lemma ResetThenLogin(h: Hasher, db: Store, email: string, otp: string, newPassword: string, salt: Salt,
                       now: int, password: string)
    requires Sound(h)
    requires AuthSpec.ResetPassword(h, db, email, otp, newPassword, salt, now).response.success
    ensures var db' := AuthSpec.ResetPassword(h, db, email, otp, newPassword, salt, now).db;
            AuthSpec.Login(h, db', email, newPassword).response.success &&
            (AuthSpec.Login(h, db', email, password).response.success <==>
               password != "" && h.compare(password, h.hash(newPassword, salt)))
  {
    var db' := AuthSpec.ResetPassword(h, db, email, otp, newPassword, salt, now).db;
    SameEmailsSameLookup(db, db', email);
  }

  // ---------------------------------------------------------------------
  // Sequences of requests

  /** One request to an authentication route, with the inputs its environment supplies. */
  datatype Request =
    | Register(name: string, email: string, password: string, salt: Salt, mailOk: bool)
    | Login(email: string, password: string)
    | Logout
    | IsAuthenticated
    | SendVerifyOtp(userId: Option<Id>, code: nat, now: int, mailOk: bool)
    | VerifyAccount(userId: Option<Id>, otp: string, now: int)
    | SendResetOtp(email: string, code: nat, now: int, mailOk: bool)
    | ResetPassword(email: string, otp: string, newPassword: string, salt: Salt, now: int)

  /** Drawn codes lie in the six-digit range. */
  predicate WellFormedRequest(req: Request) {
    match req
    case SendVerifyOtp(_, code, _, _) => ValidCode(code)
    case SendResetOtp(_, code, _, _) => ValidCode(code)
    case _ => true
  }

  function Handle(h: Hasher, db: Store, req: Request): AuthSpec.Step
    requires WellFormedRequest(req)
  {
    match req
    case Register(name, email, password, salt, mailOk) => AuthSpec.Register(h, db, name, email, password, salt, mailOk)
    case Login(email, password) => AuthSpec.Login(h, db, email, password)
    case Logout => AuthSpec.Logout(db)
    case IsAuthenticated => AuthSpec.IsAuthenticated(db)
    case SendVerifyOtp(userId, code, now, mailOk) => AuthSpec.SendVerifyOtp(db, userId, code, now, mailOk)
    case VerifyAccount(userId, otp, now) => AuthSpec.VerifyAccount(db, userId, otp, now)
    case SendResetOtp(email, code, now, mailOk) => AuthSpec.SendResetOtp(db, email, code, now, mailOk)
    case ResetPassword(email, otp, newPassword, salt, now) =>
      AuthSpec.ResetPassword(h, db, email, otp, newPassword, salt, now)
  }

  /** The store after serving the requests one after another. */
  function Run(h: Hasher, db: Store, reqs: seq<Request>): Store
    requires forall k :: 0 <= k < |reqs| ==> WellFormedRequest(reqs[k])
    decreases reqs
  {
    if reqs == [] then db else Run(h, Handle(h, db, reqs[0]).db, reqs[1..])
  }

  /**
   * `later` grew from `earlier`: no record was removed or moved, names and
   * emails are as they were, and a verified account is still verified.
   */
  ghost predicate Extends(earlier: Store, later: Store) {
    |earlier| <= |later| &&
    forall i :: 0 <= i < |earlier| ==>
      later[i].name == earlier[i].name && later[i].email == earlier[i].email &&
      (earlier[i].isAccountVerified ==> later[i].isAccountVerified)
  }

  /**
   * A single request keeps the store invariant and extends the store; the
   * only request that turns an account from unverified to verified is a
   * `verifyAccount` for that account with an accepted code.
   */
  lemma HandleStep(h: Hasher, db: Store, req: Request)
    requires WellFormedRequest(req)
    ensures StoreInvariant(db) ==> StoreInvariant(Handle(h, db, req).db)
    ensures Extends(db, Handle(h, db, req).db)
    ensures forall i :: 0 <= i < |db| && !db[i].isAccountVerified && Handle(h, db, req).db[i].isAccountVerified ==>
              req.VerifyAccount? && req.userId == Some(i) &&
              Accepts(db[i].verifyOtp, db[i].verifyOtpExpiry, req.otp, req.now)
  {
  }

  /** Every sequence of requests keeps the store invariant. */
  lemma {:induction false} RunKeepsInvariant(h: Hasher, db: Store, reqs: seq<Request>)
    requires forall k :: 0 <= k < |reqs| ==> WellFormedRequest(reqs[k])
    requires StoreInvariant(db)
    ensures StoreInvariant(Run(h, db, reqs))
    decreases reqs
  {
    if reqs != [] {
      HandleStep(h, db, reqs[0]);
      RunKeepsInvariant(h, Handle(h, db, reqs[0]).db, reqs[1..]);
    }
  }

  /**
   * Every sequence of requests only extends the store: records are never
   * removed, names and emails never change, and the verified flag never
   * goes back to false.
   */
  lemma {:induction false} RunExtends(h: Hasher, db: Store, reqs: seq<Request>)
    requires forall k :: 0 <= k < |reqs| ==> WellFormedRequest(reqs[k])
    ensures Extends(db, Run(h, db, reqs))
    decreases reqs
  {
    if reqs != [] {
      var db1 := Handle(h, db, reqs[0]).db;
      HandleStep(h, db, reqs[0]);
      RunExtends(h, db1, reqs[1..]);
    }
  }
}
