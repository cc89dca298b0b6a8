/**
 * The user controller: a read-only query that looks a record up by the
 * session's user id and projects it to its public fields.
 */
module UserController {
  import opened Wrappers
  import opened UserModel

  /** The only fields a client ever sees. */
  datatype UserData = UserData(name: string, email: string, isAccountVerified: bool)

  /** `{ success, message }` on failure, `{ success, userData }` on success. */
  datatype DataResponse = DataResponse(status: int, success: bool, message: Option<string>, userData: Option<UserData>)

  /**
   * `getUserData`. The query excludes the password digest and the four OTP
   * fields, and the reply names only name, email and the verified flag.
   * It returns no store: the query writes nothing.
   */
  function GetUserData(db: Store, userId: Option<Id>): (r: DataResponse)
    ensures r.success <==> Known(db, userId)
    ensures !Known(db, userId) ==> r == DataResponse(400, false, Some("User not found"), None)
    ensures Known(db, userId) ==>
              var u := db[userId.value];
              r.status == 200 && r.message == None &&
              r.userData == Some(UserData(u.name, u.email, u.isAccountVerified))
  {
    if !Known(db, userId) then
      DataResponse(400, false, Some("User not found"), None)
    else
      var user := db[userId.value];
      DataResponse(200, true, None, Some(UserData(user.name, user.email, user.isAccountVerified)))
  }

  /**
   * The reply does not depend on the password digest or any OTP field: two
   * stores that differ only in those fields give the same reply.
   */
  lemma SecretsNotDisclosed(db: Store, db': Store, userId: Option<Id>)
    requires |db| == |db'|
    requires forall i :: 0 <= i < |db| ==>
               db[i].name == db'[i].name && db[i].email == db'[i].email &&
               db[i].isAccountVerified == db'[i].isAccountVerified
    ensures GetUserData(db, userId) == GetUserData(db', userId)
  {
    if Known(db, userId) {
      var i := userId.value;
      assert db[i].name == db'[i].name && db[i].email == db'[i].email;
    }
  }
}
