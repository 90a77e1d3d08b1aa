/** The reset-password handler: a user whose stored token equals the one
    presented and has not yet expired gets the new password hash, and the
    token is cleared, so it works once. */
module ResetPasswordController {

  import opened Common
  import opened UserSchema
  import opened UserDocuments
  import opened Store
  import opened ForgotPasswordController

  /** The store query of `resetPassword`: the same token, an expiry strictly after `now`. */
  predicate TokenMatches(u: User, token: string, now: Millis) {
    u.resetToken == Some(token) && u.resetTokenExpiresAt.Some? && u.resetTokenExpiresAt.value > now
  }

  /** The record after a reset: the new hash, and neither token nor expiry. */
  function AfterReset(u: User, hashed: string): (r: User)
    ensures r.password == hashed && r.resetToken.None? && r.resetTokenExpiresAt.None?
    ensures forall token, now :: !TokenMatches(r, token, now)
    ensures r == u.(password := hashed, resetToken := None, resetTokenExpiresAt := None)
  {
    u.(password := hashed, resetToken := None, resetTokenExpiresAt := None)
  }

  /** A token issued at `issued` is accepted at `now` exactly when it is the
      token presented and less than an hour has passed. */
  lemma TokenWindow(u: User, issuedToken: string, issued: Millis, token: string, now: Millis)
    ensures TokenMatches(Issue(u, issuedToken, issued), token, now)
      <==> token == issuedToken && now < issued + TOKEN_LIFETIME_MS
  {
  }

  /** `resetPassword`. `hash` stands for hashing the new password. */
  method ResetPassword(db: Db, token: string, password: string, now: Millis, hash: string -> string)
    returns (reply: Reply<string>)
    requires db.Valid()
    modifies db
    ensures db.Valid()
    ensures db.products == old(db.products) && db.carts == old(db.carts)
    ensures db.orders == old(db.orders) && db.placed == old(db.placed)
    ensures (forall id :: id in old(db.users) ==> !TokenMatches(old(db.users)[id], token, now)) <==>
      reply == Failure(NOT_FOUND, "Invalid or expired token.")
    ensures reply == Failure(NOT_FOUND, "Invalid or expired token.") ==> db.users == old(db.users)
    ensures reply != Failure(NOT_FOUND, "Invalid or expired token.") ==>
      && reply == Success(OK, "Password reset successfully")
      && exists id :: id in old(db.users) && TokenMatches(old(db.users)[id], token, now) &&
           db.users == old(db.users)[id := AfterReset(old(db.users)[id], hash(password))]
  {
    var found: Option<UserId>;
    if id :| id in db.users && TokenMatches(db.users[id], token, now) {
      found := Some(id);
    } else {
      found := None;
    }
    if found.None? {
      return Failure(NOT_FOUND, "Invalid or expired token.");
    }
    var id := found.value;
    var u := db.users[id];
    var user := new UserDocument.Load(u);
    user.password := hash(password);
    user.resetToken := None;
    user.resetTokenExpiresAt := None;
    assert user.Doc() == AfterReset(u, hash(password));
    db.users := db.users[id := user.Doc()];
    reply := Success(OK, "Password reset successfully");
  }

  /** Single use: once a reset has gone through, presenting the same token
      again is refused unless another user holds the same token. */
  lemma ResetIsSingleUse(users: map<UserId, User>, after: map<UserId, User>, id: UserId,
                         token: string, hashed: string, now: Millis, later: Millis)
    requires id in users && TokenMatches(users[id], token, now)
    requires after == users[id := AfterReset(users[id], hashed)]
    requires forall other :: other in users && other != id ==> !TokenMatches(users[other], token, later)
    ensures forall other :: other in after ==> !TokenMatches(after[other], token, later)
  {
  }
}
