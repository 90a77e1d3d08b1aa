/** A user document as the account handlers load it: the fields they assign
    in place (the password, the reset token and its expiry, the login
    counter and lock time) over the stored record, written back by `save`. */
module UserDocuments {

  import opened Common
  import opened UserSchema

  class UserDocument {
    var stored: User
    var password: string
    var resetToken: Option<string>
    var resetTokenExpiresAt: Option<Millis>
    var wrongPasswordCount: int
    var blockedUntil: Option<Millis>

    /** The record `save` writes. */
    function Doc(): User
      reads this
    {
      stored.(password := password, resetToken := resetToken, resetTokenExpiresAt := resetTokenExpiresAt,
              wrongPasswordCount := wrongPasswordCount, blockedUntil := blockedUntil)
    }

    constructor Load(u: User)
      ensures stored == u && Doc() == u
    {
      stored := u;
      password, resetToken, resetTokenExpiresAt := u.password, u.resetToken, u.resetTokenExpiresAt;
      wrongPasswordCount, blockedUntil := u.wrongPasswordCount, u.blockedUntil;
    }
  }
}
