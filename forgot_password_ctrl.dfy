/** The forgot-password handler: a fresh reset token, valid for one hour,
    replaces whatever token the user held, and is saved before the mail
    carrying it is sent. */
module ForgotPasswordController {

  import opened Common
  import opened Text
  import opened UserSchema
  import opened UserDocuments
  import opened Store

  /** `crypto.randomBytes(20)` */
  const TOKEN_BYTES := 20
  /** One hour. */
  const TOKEN_LIFETIME_MS := 3600000

  /** The record after a token is issued at `now`: only the token and its
      expiry change. */
  function Issue(u: User, token: string, now: Millis): (r: User)
    ensures r.resetToken == Some(token) && r.resetTokenExpiresAt == Some(now + TOKEN_LIFETIME_MS)
    ensures r == u.(resetToken := r.resetToken, resetTokenExpiresAt := r.resetTokenExpiresAt)
  {
    u.(resetToken := Some(token), resetTokenExpiresAt := Some(now + TOKEN_LIFETIME_MS))
  }

  /** A second request replaces the first: only the latest token is kept. */
  lemma ReissueReplaces(u: User, first: string, second: string, t1: Millis, t2: Millis)
    ensures Issue(Issue(u, first, t1), second, t2) == Issue(u, second, t2)
  {
  }

  /** The issued token: 40 lowercase hexadecimal digits from which the
      random bytes can be read back. */
  lemma TokenShape(random: seq<byte>)
    requires |random| == TOKEN_BYTES
    ensures |ToHex(random)| == 2 * TOKEN_BYTES == 40
    ensures forall k :: 0 <= k < |ToHex(random)| ==> IsHexDigit(ToHex(random)[k])
    ensures FromHex(ToHex(random)) == random
  {
    HexRoundTrip(random);
  }

  /** `forgotPassword`. `random` stands for the 20 random bytes and
      `mailSent` for the outcome of sending the mail; a failed send is
      answered with 500 after the record is saved. */
  method ForgotPassword(db: Db, email: string, random: seq<byte>, now: Millis, mailSent: bool)
    returns (reply: Reply<string>)
    requires |random| == TOKEN_BYTES
    requires db.Valid()
    modifies db
    ensures db.Valid()
    ensures db.products == old(db.products) && db.carts == old(db.carts)
    ensures db.orders == old(db.orders) && db.placed == old(db.placed)
    ensures (forall id :: id in old(db.users) ==> old(db.users)[id].email != email) ==>
      reply == Failure(NOT_FOUND, "User not found!") && db.users == old(db.users)
    ensures (exists id :: id in old(db.users) && old(db.users)[id].email == email) ==>
      && (exists id :: id in old(db.users) && old(db.users)[id].email == email &&
            db.users == old(db.users)[id := Issue(old(db.users)[id], ToHex(random), now)])
      && reply == (if mailSent then Success(OK, "Reset link sent.") else Failure(SERVER_ERROR, "Internal server error"))
  {
    var found := db.FindUserByEmail(email);
    if found.None? {
      return Failure(NOT_FOUND, "User not found!");
    }
    var id := found.value;
    var u := db.users[id];
    var user := new UserDocument.Load(u);
    var token := ToHex(random);
    var expires := now + TOKEN_LIFETIME_MS;
    user.resetToken := Some(token);
    user.resetTokenExpiresAt := Some(expires);
    assert user.Doc() == Issue(u, token, now);
    db.users := db.users[id := user.Doc()];
    if !mailSent {
      return Failure(SERVER_ERROR, "Internal server error");
    }
    reply := Success(OK, "Reset link sent.");
  }
}
