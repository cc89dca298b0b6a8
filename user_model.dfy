/**
 * The user record and the store of records. The schema file itself is not
 * part of this model; the defaults of a new record (not verified, both codes
 * empty, both expiries zero) are assumed as `NewUser` states them.
 */
module UserModel {
  import opened Wrappers
  import opened Crypto
  import opened Otp

  /** A record's identifier: its position in the store, fixed at creation. */
  type Id = nat

  datatype User = User(
    name: string,
    email: string,
    password: Digest,
    isAccountVerified: bool,
    verifyOtp: string,
    verifyOtpExpiry: int,
    resetOtp: string,
    resetOtpExpiry: int)

  /** Records in creation order; nothing in scope deletes one. */
  type Store = seq<User>

  /** A record as registration creates it, with the schema defaults. */
  function NewUser(name: string, email: string, password: Digest): (u: User)
    ensures u.name == name && u.email == email && u.password == password
    ensures !u.isAccountVerified
    ensures WellFormedOtp(u.verifyOtp) && WellFormedOtp(u.resetOtp)
    ensures forall otp, now :: !Accepts(u.verifyOtp, u.verifyOtpExpiry, otp, now)
    ensures forall otp, now :: !Accepts(u.resetOtp, u.resetOtpExpiry, otp, now)
  {
    User(name, email, password, false, "", 0, "", 0)
  }

  /** `findById`: the id is present and names a record. */
  predicate Known(db: Store, userId: Option<Id>) {
    userId.Some? && userId.value < |db|
  }

  ghost predicate EmailTaken(db: Store, email: string) {
    exists i :: 0 <= i < |db| && db[i].email == email
  }

  /** `findOne({ email })`: the first record holding exactly this email. */
  function FindByEmail(db: Store, email: string): (r: Option<Id>)
    ensures r.Some? ==> r.value < |db| && db[r.value].email == email
    ensures r.Some? ==> forall j :: 0 <= j < r.value ==> db[j].email != email
    ensures r.None? <==> !EmailTaken(db, email)
  {
    if |db| == 0 then None
    else if db[0].email == email then Some(0)
    else match FindByEmail(db[1..], email)
      case None => None
      case Some(k) => Some(k + 1)
  }

  ghost predicate EmailsUnique(db: Store) {
    forall i, j :: 0 <= i < |db| && 0 <= j < |db| && db[i].email == db[j].email ==> i == j
  }

  /**
   * What every reachable store satisfies: emails are unique and non-empty,
   * and each OTP field is empty or a six-digit code.
   */
  ghost predicate StoreInvariant(db: Store) {
    EmailsUnique(db) &&
    forall i :: 0 <= i < |db| ==>
      db[i].email != "" && WellFormedOtp(db[i].verifyOtp) && WellFormedOtp(db[i].resetOtp)
  }
}
