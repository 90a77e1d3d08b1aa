/** The profile handler: the update is gathered from the truthy name fields
    of the request, the user is identified by the access token in the
    Authorization header, and the update is merged into the stored record. */
module UpdateProfileController {

  import opened Common
  import opened Text
  import opened UserSchema
  import opened Store

  /** `updateData`: the three fields the request may change, each present
      only when the request supplied a truthy value for it. */
  datatype ProfileUpdate = ProfileUpdate(firstName: Option<string>, lastName: Option<string>, username: Option<string>)

  /** The outcome of verifying an access token: the user id it carries, or
      the message of the error it raised. */
  datatype Verified = Verified(id: UserId) | Invalid(message: string)

  /** Builds `updateData` one field at a time. */
  method BuildUpdate(firstName: Option<string>, lastName: Option<string>, username: Option<string>)
    returns (update: ProfileUpdate)
    ensures update.firstName.Some? <==> TruthyString(firstName)
    ensures update.lastName.Some? <==> TruthyString(lastName)
    ensures update.username.Some? <==> TruthyString(username)
    ensures update.firstName.Some? ==> update.firstName == firstName
    ensures update.lastName.Some? ==> update.lastName == lastName
    ensures update.username.Some? ==> update.username == username
  {
    update := ProfileUpdate(None, None, None);
    if TruthyString(firstName) {
      update := update.(firstName := firstName);
    }
    if TruthyString(lastName) {
      update := update.(lastName := lastName);
    }
    if TruthyString(username) {
      update := update.(username := username);
    }
  }

  /** `findByIdAndUpdate(id, updateData)` on the stored record: the fields
      present in the update are set, and no other field is written. */
  function ApplyUpdate(u: User, update: ProfileUpdate): (r: User)
    ensures r.firstName == (if update.firstName.Some? then update.firstName.value else u.firstName)
    ensures r.lastName == (if update.lastName.Some? then update.lastName.value else u.lastName)
    ensures r.username == (if update.username.Some? then update.username.value else u.username)
    ensures r == u.(firstName := r.firstName, lastName := r.lastName, username := r.username)
  {
    u.(firstName := if update.firstName.Some? then update.firstName.value else u.firstName,
       lastName := if update.lastName.Some? then update.lastName.value else u.lastName,
       username := if update.username.Some? then update.username.value else u.username)
  }

  /** A request with no truthy name field leaves the record as it is. */
  lemma EmptyUpdateKeepsUser(u: User)
    ensures ApplyUpdate(u, ProfileUpdate(None, None, None)) == u
  {
  }

  /** The email, the password and the reset and login fields are never written. */
  lemma UpdateKeepsAccountFields(u: User, update: ProfileUpdate)
    ensures var r := ApplyUpdate(u, update);
      && r.email == u.email && r.password == u.password
      && r.resetToken == u.resetToken && r.resetTokenExpiresAt == u.resetTokenExpiresAt
      && r.wrongPasswordCount == u.wrongPasswordCount && r.blockedUntil == u.blockedUntil
  {
  }

  /** The access token: the second space-separated piece of the header, or
      None where there is none. */
  function AccessToken(header: string): (r: Option<string>)
    ensures r.Some? <==> |Split(header, ' ')| >= 2
    ensures r.Some? ==> r.value == Split(header, ' ')[1] && ' ' !in r.value
  {
    Piece(header, ' ', 1)
  }

  /** A header built as "<scheme> <token>" yields the token back. */
  lemma BearerHeader(scheme: string, token: string)
    requires ' ' !in scheme && ' ' !in token
    ensures AccessToken(scheme + " " + token) == Some(token)
  {
    var parts := [scheme, token];
    assert Join(parts, [' ']) == scheme + " " + token by {
      assert parts[1..] == [token];
    }
    SplitJoin(parts, ' ');
  }

  /** `updateProfile`. `header` is the Authorization header and `verify`
      stands for checking an access token (None where the header has no
      second piece, which never verifies). */
  method UpdateProfile(db: Db, firstName: Option<string>, lastName: Option<string>, username: Option<string>,
                       header: Option<string>, verify: Option<string> -> Verified)
    returns (reply: Reply<User>)
    requires verify(None).Invalid?
    requires db.Valid()
    modifies db
    ensures db.Valid()
    ensures db.products == old(db.products) && db.carts == old(db.carts)
    ensures db.orders == old(db.orders) && db.placed == old(db.placed)
    ensures TruthyString(header) && AccessToken(header.value).None? ==>
      reply == Failure(BAD_REQUEST, verify(None).message) && db.users == old(db.users)
    ensures !TruthyString(header) ==>
      reply == Failure(FORBIDDEN, "Unauthorized") && db.users == old(db.users)
    ensures TruthyString(header) && verify(AccessToken(header.value)).Invalid? ==>
      reply == Failure(BAD_REQUEST, verify(AccessToken(header.value)).message) && db.users == old(db.users)
    ensures TruthyString(header) && verify(AccessToken(header.value)).Verified? ==>
      var id := verify(AccessToken(header.value)).id;
      && (id !in old(db.users) ==> reply == Failure(NOT_FOUND, "User not found!") && db.users == old(db.users))
      && (id in old(db.users) ==>
            var u := old(db.users)[id];
            var update := ProfileUpdate(
              if TruthyString(firstName) then firstName else None,
              if TruthyString(lastName) then lastName else None,
              if TruthyString(username) then username else None);
            reply == Success(CREATED, ApplyUpdate(u, update))
            && db.users == old(db.users)[id := ApplyUpdate(u, update)])
  {
    var update := BuildUpdate(firstName, lastName, username);
    if !TruthyString(header) {
      return Failure(FORBIDDEN, "Unauthorized");
    }
    var token := AccessToken(header.value);
    var verified := verify(token);
    if verified.Invalid? {
      return Failure(BAD_REQUEST, verified.message);
    }
    var id := verified.id;
    if id !in db.users {
      return Failure(NOT_FOUND, "User not found!");
    }
    var updated := ApplyUpdate(db.users[id], update);
    db.users := db.users[id := updated];
    reply := Success(CREATED, updated);
  }
}
