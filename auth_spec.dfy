/**
 * The authentication handlers as functions from the store before a request
 * to the store after it, the response envelope and what happens to the
 * session cookie. Each function follows its handler's guard chain in order.
 * The clock, the drawn code, the bcrypt salt and the outcome of sending mail
 * are arguments; the session guard's user id is an argument too.
 */
module AuthSpec {
  import opened Wrappers
  import opened Crypto
  import opened Otp
  import opened UserModel

  /** The JSON envelope `{ success, message }` with its HTTP status. */
  datatype Response = Response(status: int, success: bool, message: string)

  /** What a handler does to the `token` cookie. */
  datatype Cookie =
    | Keep                  // no Set-Cookie header
    | IssueToken(userId: Id) // a signed token for this user, valid 7 days
    | Clear                 // the cookie is cleared

  datatype Step = Step(db: Store, response: Response, cookie: Cookie)

  /** `res.status(400).json({ success: false, message })`. */
  function Reject(message: string): Response {
    Response(400, false, message)
  }

  /** `res.json({ success: true, message })`. */
  function Ok(message: string): Response {
    Response(200, true, message)
  }

  /**
   * `res.json({ success: false, message })` with the status left at 200: the
   * replies of the catch blocks, and the "already verified" refusal.
   */
  function SoftFail(message: string): Response {
    Response(200, false, message)
  }

  predicate Missing(field: string) {
    field == ""
  }

  /** Some record holds this email and the password matches its digest. */
  ghost predicate Authenticates(h: Hasher, db: Store, email: string, password: string) {
    exists i :: 0 <= i < |db| && db[i].email == email && h.compare(password, db[i].password)
  }

  /**
   * `register`. The record is saved and the cookie set before the welcome
   * mail is sent, so a mail failure reports "Registration Failed" while the
   * record and the cookie stay.
   */
  function Register(h: Hasher, db: Store, name: string, email: string, password: string,
                    salt: Salt, mailOk: bool): (r: Step)
    ensures r.response.message == "Missing Details" <==> Missing(name) || Missing(email) || Missing(password)
    ensures !Missing(name) && !Missing(email) && !Missing(password) && EmailTaken(db, email) ==>
              r.response == Reject("User Already Exists")
    ensures r.response.status == 400 <==>
              Missing(name) || Missing(email) || Missing(password) || EmailTaken(db, email)
    ensures r.response.status == 400 ==> r.db == db && r.cookie == Keep && !r.response.success
    ensures r.response.status != 400 ==>
              r.db == db + [NewUser(name, email, h.hash(password, salt))] && r.cookie == IssueToken(|db|)
    ensures !Missing(name) && !Missing(email) && !Missing(password) && !EmailTaken(db, email) ==>
              r.response == if mailOk then Ok("Registration Successful") else SoftFail("Registration Failed")
    ensures r.response.success <==> r.response.status != 400 && mailOk
    ensures StoreInvariant(db) ==> StoreInvariant(r.db)
  {
    if Missing(name) || Missing(email) || Missing(password) then
      Step(db, Reject("Missing Details"), Keep)
    else if FindByEmail(db, email).Some? then
      Step(db, Reject("User Already Exists"), Keep)
    else
      var db' := db + [NewUser(name, email, h.hash(password, salt))];
      var response := if mailOk then Ok("Registration Successful") else SoftFail("Registration Failed");
      Step(db', response, IssueToken(|db|))
  }

  /**
   * `login`. An unknown email and a wrong password give the same response,
   * and no path writes to the store.
   */
  function Login(h: Hasher, db: Store, email: string, password: string): (r: Step)
    ensures r.db == db
    ensures Missing(email) || Missing(password) ==>
              r.response == Reject("Email and password are required") && r.cookie == Keep
    ensures !Missing(email) && !Missing(password) && !r.response.success ==>
              r.response == Reject("Invalid email or password") && r.cookie == Keep
    ensures r.response.success ==>
              r.response == Ok("Login Successful") && r.cookie.IssueToken? &&
              r.cookie.userId < |db| && db[r.cookie.userId].email == email &&
              h.compare(password, db[r.cookie.userId].password)
    ensures EmailsUnique(db) ==>
              (r.response.success <==> !Missing(email) && !Missing(password) && Authenticates(h, db, email, password))
  {
    if Missing(email) || Missing(password) then
      Step(db, Reject("Email and password are required"), Keep)
    else match FindByEmail(db, email)
      case None => Step(db, Reject("Invalid email or password"), Keep)
      case Some(id) =>
        if !h.compare(password, db[id].password) then
          Step(db, Reject("Invalid email or password"), Keep)
        else
          Step(db, Ok("Login Successful"), IssueToken(id))
  }

  /** `logout`: clears the cookie, always succeeds, never touches the store. */
  function Logout(db: Store): (r: Step)
    ensures r.db == db && r.cookie == Clear && r.response.success
  {
    Step(db, Ok("Logout Successful"), Clear)
  }

  /** `isAuthenticated`: reached only past the session guard, it always succeeds. */
  function IsAuthenticated(db: Store): (r: Step)
    ensures r.db == db && r.cookie == Keep && r.response.success
  {
    Step(db, Ok("User is authenticated"), Keep)
  }

  /**
   * `sendVerifyOtp`. An unknown user is a null record whose field access
   * throws, so it lands in the catch block. The code is saved before the
   * mail is sent.
   */
  function SendVerifyOtp(db: Store, userId: Option<Id>, code: nat, now: int, mailOk: bool): (r: Step)
    requires ValidCode(code)
    ensures r.cookie == Keep
    ensures !Known(db, userId) ==> r.db == db && r.response == SoftFail("Failed to send OTP")
    ensures Known(db, userId) && db[userId.value].isAccountVerified ==>
              r.db == db && r.response == SoftFail("Account is already verified")
    ensures Known(db, userId) && !db[userId.value].isAccountVerified ==>
              |r.db| == |db| &&
              r.db[userId.value] == db[userId.value].(verifyOtp := CodeString(code),
                                                     verifyOtpExpiry := now + VerifyOtpLifetime) &&
              forall j :: 0 <= j < |db| && j != userId.value ==> r.db[j] == db[j]
    ensures Known(db, userId) && !db[userId.value].isAccountVerified ==>
              r.response == if mailOk then Ok("OTP sent to your email for account verification")
                            else SoftFail("Failed to send OTP")
    ensures r.response.success <==> Known(db, userId) && !db[userId.value].isAccountVerified && mailOk
    ensures StoreInvariant(db) ==> StoreInvariant(r.db)
  {
    if !Known(db, userId) then
      Step(db, SoftFail("Failed to send OTP"), Keep)
    else
      var user := db[userId.value];
      if user.isAccountVerified then
        Step(db, SoftFail("Account is already verified"), Keep)
      else
        var user' := user.(verifyOtp := CodeString(code), verifyOtpExpiry := now + VerifyOtpLifetime);
        var response := if mailOk then Ok("OTP sent to your email for account verification")
                        else SoftFail("Failed to send OTP");
        Step(db[userId.value := user'], response, Keep)
  }

  /**
   * `verifyAccount`. Guards in order: missing details, unknown user, invalid
   * code (checked before expiry), expired code. Success marks the account
   * verified and clears the verification code.
   */
  function VerifyAccount(db: Store, userId: Option<Id>, otp: string, now: int): (r: Step)
    ensures r.cookie == Keep
    ensures userId.None? || Missing(otp) ==> r.response == Reject("Missing Details")
    ensures userId.Some? && !Missing(otp) && !Known(db, userId) ==> r.response == Reject("User not found")
    ensures Known(db, userId) && !Missing(otp) && db[userId.value].verifyOtp != otp ==>
              r.response == Reject("Invalid OTP")
    ensures Known(db, userId) && !Missing(otp) && db[userId.value].verifyOtp == otp &&
            db[userId.value].verifyOtpExpiry < now ==>
              r.response == Reject("OTP Expired")
    ensures r.response.success <==>
              Known(db, userId) &&
              Accepts(db[userId.value].verifyOtp, db[userId.value].verifyOtpExpiry, otp, now)
    ensures !r.response.success ==> r.db == db
    ensures r.response.success ==>
              r.response == Ok("Account Verified Successfully") &&
              |r.db| == |db| &&
              r.db[userId.value] == db[userId.value].(isAccountVerified := true, verifyOtp := "", verifyOtpExpiry := 0) &&
              forall j :: 0 <= j < |db| && j != userId.value ==> r.db[j] == db[j]
    ensures StoreInvariant(db) ==> StoreInvariant(r.db)
  {
    if userId.None? || Missing(otp) then
      Step(db, Reject("Missing Details"), Keep)
    else if !Known(db, userId) then
      Step(db, Reject("User not found"), Keep)
    else
      var user := db[userId.value];
      if user.verifyOtp == "" || user.verifyOtp != otp then
        Step(db, Reject("Invalid OTP"), Keep)
      else if user.verifyOtpExpiry < now then
        Step(db, Reject("OTP Expired"), Keep)
      else
        var user' := user.(isAccountVerified := true, verifyOtp := "", verifyOtpExpiry := 0);
        Step(db[userId.value := user'], Ok("Account Verified Successfully"), Keep)
  }

  /**
   * `sendResetOtp`. Works on any record found by email, verified or not, and
   * touches only the reset code and its expiry. The code is saved before the
   * mail is sent.
   */
  function SendResetOtp(db: Store, email: string, code: nat, now: int, mailOk: bool): (r: Step)
    requires ValidCode(code)
    ensures r.cookie == Keep
    ensures Missing(email) ==> r.db == db && r.response == Reject("Email is required")
    ensures !Missing(email) && !EmailTaken(db, email) ==> r.db == db && r.response == Reject("User not found")
    ensures !Missing(email) && EmailTaken(db, email) ==>
              var id := FindByEmail(db, email).value;
              |r.db| == |db| &&
              r.db[id] == db[id].(resetOtp := CodeString(code), resetOtpExpiry := now + ResetOtpLifetime) &&
              forall j :: 0 <= j < |db| && j != id ==> r.db[j] == db[j]
    ensures !Missing(email) && EmailTaken(db, email) ==>
              r.response == if mailOk then Ok("Password reset OTP sent to your email")
                            else SoftFail("Failed to send password reset OTP")
    ensures r.response.success <==> !Missing(email) && EmailTaken(db, email) && mailOk
    ensures StoreInvariant(db) ==> StoreInvariant(r.db)
  {
    if Missing(email) then
      Step(db, Reject("Email is required"), Keep)
    else match FindByEmail(db, email)
      case None => Step(db, Reject("User not found"), Keep)
      case Some(id) =>
        var user' := db[id].(resetOtp := CodeString(code), resetOtpExpiry := now + ResetOtpLifetime);
        var response := if mailOk then Ok("Password reset OTP sent to your email")
                        else SoftFail("Failed to send password reset OTP");
        Step(db[id := user'], response, Keep)
  }

  /**
   * `resetPassword`. The same guard order as `verifyAccount`, on the reset
   * code of the record found by email. Success stores a digest of the new
   * password and clears the reset code.
   */
  function ResetPassword(h: Hasher, db: Store, email: string, otp: string, newPassword: string,
                         salt: Salt, now: int): (r: Step)
    ensures r.cookie == Keep
    ensures Missing(email) || Missing(otp) || Missing(newPassword) ==> r.response == Reject("Missing Details")
    ensures !Missing(email) && !Missing(otp) && !Missing(newPassword) && !EmailTaken(db, email) ==>
              r.response == Reject("User not found")
    ensures !Missing(email) && !Missing(otp) && !Missing(newPassword) && EmailTaken(db, email) ==>
              var user := db[FindByEmail(db, email).value];
              (user.resetOtp != otp ==> r.response == Reject("Invalid OTP")) &&
              (user.resetOtp == otp && user.resetOtpExpiry < now ==> r.response == Reject("OTP Expired"))
    ensures r.response.success <==>
              !Missing(email) && !Missing(newPassword) && EmailTaken(db, email) &&
              var user := db[FindByEmail(db, email).value];
              Accepts(user.resetOtp, user.resetOtpExpiry, otp, now)
    ensures !r.response.success ==> r.db == db
    ensures r.response.success ==>
              var id := FindByEmail(db, email).value;
              r.response == Ok("Password Reset Successfully") &&
              |r.db| == |db| &&
              r.db[id] == db[id].(password := h.hash(newPassword, salt), resetOtp := "", resetOtpExpiry := 0) &&
              forall j :: 0 <= j < |db| && j != id ==> r.db[j] == db[j]
    ensures StoreInvariant(db) ==> StoreInvariant(r.db)
  {
    if Missing(email) || Missing(otp) || Missing(newPassword) then
      Step(db, Reject("Missing Details"), Keep)
    else match FindByEmail(db, email)
      case None => Step(db, Reject("User not found"), Keep)
      case Some(id) =>
        var user := db[id];
        if user.resetOtp == "" || user.resetOtp != otp then
          Step(db, Reject("Invalid OTP"), Keep)
        else if user.resetOtpExpiry < now then
          Step(db, Reject("OTP Expired"), Keep)
        else
          var user' := user.(password := h.hash(newPassword, salt), resetOtp := "", resetOtpExpiry := 0);
          Step(db[id := user'], Ok("Password Reset Successfully"), Keep)
  }
}
