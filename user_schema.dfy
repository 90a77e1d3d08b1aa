/** The user record. Its schema declares plain optional fields and no
    validators; the login counter and lock time are fields the login handler
    writes in addition. */
module UserSchema {

  import opened Common

  datatype User = User(
    firstName: string,
    lastName: string,
    username: string,
    email: string,
    password: string,
    resetToken: Option<string>,
    resetTokenExpiresAt: Option<Millis>,
    wrongPasswordCount: int,
    blockedUntil: Option<Millis>)
}
