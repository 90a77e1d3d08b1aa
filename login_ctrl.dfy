/** The login handler: a wrong password counts one more failure and, from
    the fifth on, locks the account for 24 hours; a right password clears
    both and issues an access token. The lock is recorded but never
    consulted. */
module LoginController {

  import opened Common
  import opened UserSchema
  import opened UserDocuments
  import opened Store

  const LOCK_THRESHOLD := 5
  const LONG_LOCK_THRESHOLD := 7
  /** 24 * 60 * 60 * 1000 */
  const DAY_MS := 86400000
  /** 12 * 60 * 60 * 1000 */
  const HALF_DAY_MS := 43200000

  /** The record after a wrong password at time `now`, branches as written:
      the 12-hour branch sits behind the 24-hour one, whose condition it
      implies, so it can never be taken. */
  function AfterWrongPassword(u: User, now: Millis): (r: User)
    ensures r.wrongPasswordCount == u.wrongPasswordCount + 1
    ensures r.wrongPasswordCount >= LOCK_THRESHOLD ==> r.blockedUntil == Some(now + DAY_MS)
    ensures r.wrongPasswordCount >= LONG_LOCK_THRESHOLD ==> r.blockedUntil == Some(now + DAY_MS)
    ensures r.wrongPasswordCount < LOCK_THRESHOLD ==> r.blockedUntil == u.blockedUntil
    ensures r == u.(wrongPasswordCount := r.wrongPasswordCount, blockedUntil := r.blockedUntil)
  {
    var count := u.wrongPasswordCount + 1;
    if count >= LOCK_THRESHOLD then u.(wrongPasswordCount := count, blockedUntil := Some(now + DAY_MS))
    else if count >= LONG_LOCK_THRESHOLD then u.(wrongPasswordCount := count, blockedUntil := Some(now + HALF_DAY_MS))
    else u.(wrongPasswordCount := count)
  }

  /** The record after a right password: no failure counted, no lock. */
  function AfterRightPassword(u: User): (r: User)
    ensures r.wrongPasswordCount == 0 && r.blockedUntil.None?
    ensures r == u.(wrongPasswordCount := 0, blockedUntil := None)
  {
    u.(wrongPasswordCount := 0, blockedUntil := None)
  }

  /** The record after a run of wrong passwords at the given times. */
  function AfterWrongPasswords(u: User, times: seq<Millis>): User
    decreases |times|
  {
    if times == [] then u else AfterWrongPasswords(AfterWrongPassword(u, times[0]), times[1..])
  }

  /** A run of failures adds its length to the counter; the lock is set, to a
      day after the last failure, exactly when the counter reaches 5 during
      the run, and is left as it was otherwise. */
  lemma {:induction false} WrongPasswordRun(u: User, times: seq<Millis>)
    ensures AfterWrongPasswords(u, times).wrongPasswordCount == u.wrongPasswordCount + |times|
    ensures AfterWrongPasswords(u, times).blockedUntil ==
      if times != [] && u.wrongPasswordCount + |times| >= LOCK_THRESHOLD
      then Some(times[|times| - 1] + DAY_MS) else u.blockedUntil
    ensures AfterWrongPasswords(u, times).password == u.password
    ensures AfterWrongPasswords(u, times).email == u.email
    decreases |times|
  {
    if times != [] {
      var next := AfterWrongPassword(u, times[0]);
      WrongPasswordRun(next, times[1..]);
    }
  }

  /** After a successful login, four failures leave the lock as the login
      left it (none) and the fifth sets it. */
  lemma FifthFailureLocks(u: User, times: seq<Millis>)
    requires |times| == LOCK_THRESHOLD
    ensures AfterWrongPasswords(AfterRightPassword(u), times[..LOCK_THRESHOLD - 1]).blockedUntil.None?
    ensures AfterWrongPasswords(AfterRightPassword(u), times).blockedUntil == Some(times[LOCK_THRESHOLD - 1] + DAY_MS)
  {
    WrongPasswordRun(AfterRightPassword(u), times[..LOCK_THRESHOLD - 1]);
    WrongPasswordRun(AfterRightPassword(u), times);
  }

  /** `loginUser`. `compare` stands for the password-hash comparison and
      `sign` for issuing an access token for a user id. */
  method LoginUser(db: Db, email: string, password: string, now: Millis,
                   compare: (string, string) -> bool, sign: UserId -> string)
    returns (reply: Reply<string>)
    requires db.Valid()
    modifies db
    ensures db.Valid()
    ensures db.products == old(db.products) && db.carts == old(db.carts)
    ensures db.orders == old(db.orders) && db.placed == old(db.placed)
    ensures (forall id :: id in old(db.users) ==> old(db.users)[id].email != email) ==>
      reply == Failure(NOT_FOUND, "User does not exist") && db.users == old(db.users)
    ensures (exists id :: id in old(db.users) && old(db.users)[id].email == email) ==>
      exists id :: id in old(db.users) && old(db.users)[id].email == email &&
        var u := old(db.users)[id];
        if compare(password, u.password) then
          reply == Success(CREATED, sign(id)) && db.users == old(db.users)[id := AfterRightPassword(u)]
        else
          reply == Failure(UNAUTHORIZED, "Login failed") && db.users == old(db.users)[id := AfterWrongPassword(u, now)]
  {
    var found := db.FindUserByEmail(email);
    if found.None? {
      return Failure(NOT_FOUND, "User does not exist");
    }
    var id := found.value;
    var u := db.users[id];
    var user := new UserDocument.Load(u);
    if !compare(password, user.password) {
      user.wrongPasswordCount := user.wrongPasswordCount + 1;
      var lock := user.blockedUntil;
      if user.wrongPasswordCount >= LOCK_THRESHOLD {
        lock := Some(now + DAY_MS);
      } else if user.wrongPasswordCount >= LONG_LOCK_THRESHOLD {
        lock := Some(now + HALF_DAY_MS);
      }
      user.blockedUntil := lock;
      assert user.Doc() == AfterWrongPassword(u, now);
      db.users := db.users[id := user.Doc()];
      return Failure(UNAUTHORIZED, "Login failed");
    }
    user.wrongPasswordCount := 0;
    user.blockedUntil := None;
    assert user.Doc() == AfterRightPassword(u);
    db.users := db.users[id := user.Doc()];
    reply := Success(CREATED, sign(id));
  }
}
