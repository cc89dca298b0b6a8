/**
 * The authentication controller as a stateful service over the record store.
 * Each handler runs its guard chain with early returns, copies the record it
 * found, assigns the fields one by one and saves the copy back, as a
 * document fetched, edited and saved does. Each method is proved to do what
 * the matching function of `AuthSpec` describes, and to keep the store
 * invariant.
 */
module AuthController {
  import opened Wrappers
  import opened Crypto
  import opened Otp
  import opened UserModel
  import opened AuthSpec

  class AuthService {
    const hasher: Hasher
    var users: Store

    ghost predicate Valid()
      reads this
    {
      StoreInvariant(users)
    }

    constructor (hasher: Hasher)
      ensures Valid() && this.hasher == hasher && users == []
    {
      this.hasher := hasher;
      users := [];
    }

    method Register(name: string, email: string, password: string, salt: Salt, mailOk: bool)
      returns (response: Response, cookie: Cookie)
      requires Valid()
      modifies this`users
      ensures Valid()
      ensures Step(users, response, cookie) == AuthSpec.Register(hasher, old(users), name, email, password, salt, mailOk)
    {
      if name == "" || email == "" || password == "" {
        return Reject("Missing Details"), Keep;
      }
      var existingUser := FindByEmail(users, email);
      if existingUser.Some? {
        return Reject("User Already Exists"), Keep;
      }
      var hashedPassword := hasher.hash(password, salt);
      var newUser := NewUser(name, email, hashedPassword);
      users := users + [newUser];
      cookie := IssueToken(|users| - 1);
      if !mailOk {
        return SoftFail("Registration Failed"), cookie;
      }
      response := Ok("Registration Successful");
    }

    method Login(email: string, password: string) returns (response: Response, cookie: Cookie)
      requires Valid()
      ensures Step(users, response, cookie) == AuthSpec.Login(hasher, users, email, password)
    {
      if email == "" || password == "" {
        return Reject("Email and password are required"), Keep;
      }
      var found := FindByEmail(users, email);
      if found.None? {
        return Reject("Invalid email or password"), Keep;
      }
      var user := users[found.value];
      var isPasswordValid := hasher.compare(password, user.password);
      if !isPasswordValid {
        return Reject("Invalid email or password"), Keep;
      }
      response, cookie := Ok("Login Successful"), IssueToken(found.value);
    }

    method Logout() returns (response: Response, cookie: Cookie)
      ensures Step(users, response, cookie) == AuthSpec.Logout(users)
    {
      response, cookie := Ok("Logout Successful"), Clear;
    }

    method IsAuthenticated() returns (response: Response)
      ensures Step(users, response, Keep) == AuthSpec.IsAuthenticated(users)
    {
      response := Ok("User is authenticated");
    }

    method SendVerifyOtp(userId: Option<Id>, code: nat, now: int, mailOk: bool) returns (response: Response)
      requires Valid() && ValidCode(code)
      modifies this`users
      ensures Valid()
      ensures Step(users, response, Keep) == AuthSpec.SendVerifyOtp(old(users), userId, code, now, mailOk)
    {
      if userId.None? || userId.value >= |users| {
        return SoftFail("Failed to send OTP");
      }
      var user := users[userId.value];
      if user.isAccountVerified {
        return SoftFail("Account is already verified");
      }
      var otp := CodeString(code);
      user := user.(verifyOtp := otp);
      user := user.(verifyOtpExpiry := now + VerifyOtpLifetime);
      users := users[userId.value := user];
      if !mailOk {
        return SoftFail("Failed to send OTP");
      }
      response := Ok("OTP sent to your email for account verification");
    }

    method VerifyAccount(userId: Option<Id>, otp: string, now: int) returns (response: Response)
      requires Valid()
      modifies this`users
      ensures Valid()
      ensures Step(users, response, Keep) == AuthSpec.VerifyAccount(old(users), userId, otp, now)
    {
      if userId.None? || otp == "" {
        return Reject("Missing Details");
      }
      if userId.value >= |users| {
        return Reject("User not found");
      }
      var user := users[userId.value];
      if user.verifyOtp == "" || user.verifyOtp != otp {
        return Reject("Invalid OTP");
      }
      if user.verifyOtpExpiry < now {
        return Reject("OTP Expired");
      }
      user := user.(isAccountVerified := true);
      user := user.(verifyOtp := "");
      user := user.(verifyOtpExpiry := 0);
      users := users[userId.value := user];
      response := Ok("Account Verified Successfully");
    }

    method SendResetOtp(email: string, code: nat, now: int, mailOk: bool) returns (response: Response)
      requires Valid() && ValidCode(code)
      modifies this`users
      ensures Valid()
      ensures Step(users, response, Keep) == AuthSpec.SendResetOtp(old(users), email, code, now, mailOk)
    {
      if email == "" {
        return Reject("Email is required");
      }
      var found := FindByEmail(users, email);
      if found.None? {
        return Reject("User not found");
      }
      var user := users[found.value];
      var otp := CodeString(code);
      user := user.(resetOtp := otp);
      user := user.(resetOtpExpiry := now + ResetOtpLifetime);
      users := users[found.value := user];
      if !mailOk {
        return SoftFail("Failed to send password reset OTP");
      }
      response := Ok("Password reset OTP sent to your email");
    }

    method ResetPassword(email: string, otp: string, newPassword: string, salt: Salt, now: int)
      returns (response: Response)
      requires Valid()
      modifies this`users
      ensures Valid()
      ensures Step(users, response, Keep) == AuthSpec.ResetPassword(hasher, old(users), email, otp, newPassword, salt, now)
    {
      if email == "" || otp == "" || newPassword == "" {
        return Reject("Missing Details");
      }
      var found := FindByEmail(users, email);
      if found.None? {
        return Reject("User not found");
      }
      var user := users[found.value];
      if user.resetOtp == "" || user.resetOtp != otp {
        return Reject("Invalid OTP");
      }
      if user.resetOtpExpiry < now {
        return Reject("OTP Expired");
      }
      var hashedPassword := hasher.hash(newPassword, salt);
      user := user.(password := hashedPassword);
      user := user.(resetOtp := "");
      user := user.(resetOtpExpiry := 0);
      users := users[found.value := user];
      response := Ok("Password Reset Successfully");
    }
  }
}
