/** The credential store behind `UsersService`: a table of `User` rows in
    insertion order, the `findOne` lookups, the partial `update` and the
    small counter and reset-token writes built on it. */
module UsersService {
  import opened Base
  import opened UserEntity

  /** The `where` clause of a `findOne` lookup. */
  datatype Key =
    | ById(id: nat)
    | ByEmail(email: string)
    | ByGoogleId(googleId: string)
    | ByResetToken(token: string)

  predicate Matches(u: User, k: Key)
  {
    match k
    case ById(id) => u.id == id
    case ByEmail(e) => u.email == e
    // a null column never equals a string in a `where` clause
    case ByGoogleId(g) => u.googleId == Some(g)
    case ByResetToken(t) => u.resetPasswordToken == Some(t)
  }

  /** The `user` table: rows in insertion order and the next generated key. */
  datatype Db = Db(users: seq<User>, nextId: nat)

  /** The table's schema constraints: generated keys are increasing and below
      `nextId`, `email` is unique, and a non-null `googleId` is unique. */
  ghost predicate Valid(db: Db)
  {
    && (forall i :: 0 <= i < |db.users| ==> db.users[i].id < db.nextId)
    && (forall i, j :: 0 <= i < j < |db.users| ==> db.users[i].id < db.users[j].id)
    && (forall i, j :: 0 <= i < j < |db.users| ==> db.users[i].email != db.users[j].email)
    && (forall i, j :: 0 <= i < j < |db.users| && db.users[i].googleId.Some? ==>
          db.users[i].googleId != db.users[j].googleId)
  }

  /** Index of the first row matching `k`. */
  function FindIndex(users: seq<User>, k: Key): (r: Option<nat>)
    ensures r.Some? ==> r.value < |users| && Matches(users[r.value], k)
    ensures r.Some? ==> forall j :: 0 <= j < r.value ==> !Matches(users[j], k)
    ensures r.None? ==> forall j :: 0 <= j < |users| ==> !Matches(users[j], k)
  {
    if |users| == 0 then None
    else if Matches(users[0], k) then Some(0)
    else
      match FindIndex(users[1..], k)
      case None => None
      case Some(i) => Some(i + 1)
  }

  /** `findOne({ where })`: `findByEmail`, `findById`, `findByGoogleId` and
      `findByResetPasswordToken` are this lookup with the matching key. */
  function Find(db: Db, k: Key): (r: Option<User>)
    ensures r.Some? ==> r.value in db.users && Matches(r.value, k)
    ensures r.None? <==> forall u :: u in db.users ==> !Matches(u, k)
  {
    match FindIndex(db.users, k)
    case None => None
    case Some(i) => Some(db.users[i])
  }

  /** On a valid table the email, key and Google id lookups find the one row
      that carries the value. */
  lemma FindUnique(db: Db, i: nat, k: Key)
    requires Valid(db)
    requires i < |db.users| && Matches(db.users[i], k)
    requires k.ById? || k.ByEmail? || k.ByGoogleId?
    ensures FindIndex(db.users, k) == Some(i)
    ensures Find(db, k) == Some(db.users[i])
  {
    forall j | 0 <= j < i
      ensures !Matches(db.users[j], k)
    {
      match k {
        case ById(_) => assert db.users[j].id < db.users[i].id;
        case ByEmail(_) => assert db.users[j].email != db.users[i].email;
        case ByGoogleId(_) => assert db.users[j].googleId != db.users[i].googleId;
      }
    }
  }

  /** The table with the row keyed `u.id` replaced by `u`. */
  function Put(db: Db, u: User): Db
  {
    match FindIndex(db.users, ById(u.id))
    case None => db
    case Some(i) => db.(users := db.users[i := u])
  }

  /** Writing `p` to row `id` would give it an email or Google id that
      another row already holds. */
  predicate Conflict(db: Db, id: nat, p: Patch)
  {
    || (p.email.Some? &&
        exists j :: 0 <= j < |db.users| && db.users[j].id != id && db.users[j].email == p.email.value)
    || (p.googleId.Some? && p.googleId.value.Some? &&
        exists j :: 0 <= j < |db.users| && db.users[j].id != id && db.users[j].googleId == p.googleId.value)
  }

  /** Every row other than the one keyed `id` is as it was, and so are the
      keys and the generated-key counter. */
  predicate OthersUnchanged(db: Db, db': Db, id: nat)
  {
    && |db'.users| == |db.users|
    && db'.nextId == db.nextId
    && (forall j :: 0 <= j < |db.users| ==> db'.users[j].id == db.users[j].id)
    && (forall j :: 0 <= j < |db.users| && db.users[j].id != id ==> db'.users[j] == db.users[j])
  }

  /** `usersRepo.update(id, data)`: writes only the supplied columns of the
      row keyed `id`, does nothing when there is no such row, and fails as a
      whole when a unique column would be duplicated. */
  function RepoUpdate(db: Db, id: nat, p: Patch): (r: Result<Db>)
    ensures Find(db, ById(id)).None? ==> r == Ok(db)
    ensures r.Err? <==> Find(db, ById(id)).Some? && Conflict(db, id, p)
    ensures r.Err? ==> r.error == UniqueViolation
    ensures p.email.None? && p.googleId.None? ==> r.Ok?
    ensures r.Ok? ==> OthersUnchanged(db, r.value, id)
    ensures r.Ok? && Find(db, ById(id)).Some? ==>
              Find(r.value, ById(id)) == Some(ApplyPatch(Find(db, ById(id)).value, p))
    ensures r.Ok? && Find(db, ById(id)).Some? ==>
              r.value == Put(db, ApplyPatch(Find(db, ById(id)).value, p))
  {
    match FindIndex(db.users, ById(id))
    case None => Ok(db)
    case Some(i) =>
      if Conflict(db, id, p) then Err(UniqueViolation)
      else
        var db' := db.(users := db.users[i := ApplyPatch(db.users[i], p)]);
        assert FindIndex(db'.users, ById(id)) == Some(i) by {
          FindIndexAfterWrite(db.users, i, ApplyPatch(db.users[i], p), ById(id));
        }
        Ok(db')
  }

  /** Overwriting a row with one that still matches the key keeps the first
      match where it was. */
  lemma FindIndexAfterWrite(users: seq<User>, i: nat, u: User, k: Key)
    requires FindIndex(users, k) == Some(i)
    requires Matches(u, k)
    ensures FindIndex(users[i := u], k) == Some(i)
  {
    assert Matches(users[i := u][i], k);
    assert forall j :: 0 <= j < i ==> users[i := u][j] == users[j];
  }

  datatype Updated = Updated(db: Db, user: Option<User>)

  /** `updateUser(id, data)`: the repository update followed by a re-read of
      the row, which is returned. */
  function UpdateUser(db: Db, id: nat, p: Patch): (r: Result<Updated>)
    ensures r.Err? <==> RepoUpdate(db, id, p).Err?
    ensures r.Ok? ==> r.value.db == RepoUpdate(db, id, p).value
    ensures r.Ok? ==> r.value.user == Find(r.value.db, ById(id))
    ensures r.Ok? ==> match Find(db, ById(id))
                      case None => r.value.user.None?
                      case Some(u) => r.value.user == Some(ApplyPatch(u, p))
  {
    match RepoUpdate(db, id, p)
    case Err(e) => Err(e)
    case Ok(db') => Ok(Updated(db', Find(db', ById(id))))
  }

  datatype Created = Created(db: Db, user: User)

  /** `createUser(data)`: inserts a row with the next generated key, the
      given `email`, the columns of `data` and the column defaults for the
      rest; a duplicate email or Google id is rejected by the table. */
  function CreateUser(db: Db, email: string, data: Patch): (r: Result<Created>)
    requires data.email.None?
    ensures r.Err? <==>
              || (exists u :: u in db.users && u.email == email)
              || (data.googleId.Some? && data.googleId.value.Some? &&
                  exists u :: u in db.users && u.googleId == data.googleId.value)
    ensures r.Err? ==> r.error == UniqueViolation
    ensures r.Ok? ==> r.value.user == ApplyPatch(Defaults(db.nextId, email), data)
    ensures r.Ok? ==> r.value.db == Db(db.users + [r.value.user], db.nextId + 1)
  {
    var u := ApplyPatch(Defaults(db.nextId, email), data);
    if exists j :: 0 <= j < |db.users| && db.users[j].email == email then Err(UniqueViolation)
    else if data.googleId.Some? && data.googleId.value.Some? &&
            exists j :: 0 <= j < |db.users| && db.users[j].googleId == data.googleId.value
    then Err(UniqueViolation)
    else Ok(Created(Db(db.users + [u], db.nextId + 1), u))
  }

  datatype Incremented = Incremented(db: Db, attempts: nat)

  /** `incrementFailedAttempts(id)`: stores and returns the old count plus
      one; a missing row is an error and nothing is written. */
  function IncrementFailedAttempts(db: Db, id: nat): (r: Result<Incremented>)
    ensures Find(db, ById(id)).None? <==> r == Err(IncrementMissingUser)
    ensures Find(db, ById(id)).Some? <==> r.Ok?
    ensures r.Ok? ==> var u := Find(db, ById(id)).value;
                      && r.value.attempts == u.failedLoginAttempts + 1
                      && OthersUnchanged(db, r.value.db, id)
                      && Find(r.value.db, ById(id)) == Some(u.(failedLoginAttempts := r.value.attempts))
                      && r.value.db == Put(db, u.(failedLoginAttempts := r.value.attempts))
  {
    match Find(db, ById(id))
    case None => Err(IncrementMissingUser)
    case Some(u) =>
      var attempts := u.failedLoginAttempts + 1;
      Ok(Incremented(RepoUpdate(db, id, NoChange.(failedLoginAttempts := Some(attempts))).value, attempts))
  }

  /** `resetFailedAttempts(id)`: zeroes the counter and nothing else. */
  function ResetFailedAttempts(db: Db, id: nat): (r: Db)
    ensures OthersUnchanged(db, r, id)
    ensures Find(db, ById(id)).None? ==> r == db
    ensures Find(db, ById(id)).Some? ==>
              Find(r, ById(id)) == Some(Find(db, ById(id)).value.(failedLoginAttempts := 0))
    ensures Find(db, ById(id)).Some? ==> r == Put(db, Find(db, ById(id)).value.(failedLoginAttempts := 0))
  {
    RepoUpdate(db, id, NoChange.(failedLoginAttempts := Some(0))).value
  }

  /** `setPasswordResetToken(id, token, expiresAt)`: overwrites both reset
      columns, so a user has at most one outstanding reset token. */
  function SetPasswordResetToken(db: Db, id: nat, token: string, expiresAt: int): (r: Db)
    ensures OthersUnchanged(db, r, id)
    ensures Find(db, ById(id)).None? ==> r == db
    ensures Find(db, ById(id)).Some? ==>
              Find(r, ById(id)) ==
              Some(Find(db, ById(id)).value.(resetPasswordToken := Some(token), resetPasswordExpires := Some(expiresAt)))
    ensures Find(db, ById(id)).Some? ==>
              r == Put(db, Find(db, ById(id)).value.(resetPasswordToken := Some(token), resetPasswordExpires := Some(expiresAt)))
  {
    RepoUpdate(db, id, NoChange.(resetPasswordToken := Some(Some(token)), resetPasswordExpires := Some(Some(expiresAt)))).value
  }

  /** `updatePassword(id, hash)`: replaces the stored digest only. */
  function UpdatePassword(db: Db, id: nat, hash: Digest): (r: Db)
    ensures OthersUnchanged(db, r, id)
    ensures Find(db, ById(id)).None? ==> r == db
    ensures Find(db, ById(id)).Some? ==>
              Find(r, ById(id)) == Some(Find(db, ById(id)).value.(passwordHash := Some(hash)))
    ensures Find(db, ById(id)).Some? ==>
              r == Put(db, Find(db, ById(id)).value.(passwordHash := Some(hash)))
  {
    RepoUpdate(db, id, NoChange.(passwordHash := Some(Some(hash)))).value
  }

  /** `clearPasswordResetToken(id)`: nulls both reset columns and nothing else. */
  function ClearPasswordResetToken(db: Db, id: nat): (r: Db)
    ensures OthersUnchanged(db, r, id)
    ensures Find(db, ById(id)).None? ==> r == db
    ensures Find(db, ById(id)).Some? ==>
              Find(r, ById(id)) ==
              Some(Find(db, ById(id)).value.(resetPasswordToken := None, resetPasswordExpires := None))
    ensures Find(db, ById(id)).Some? ==>
              r == Put(db, Find(db, ById(id)).value.(resetPasswordToken := None, resetPasswordExpires := None))
  {
    RepoUpdate(db, id, NoChange.(resetPasswordToken := Some(None), resetPasswordExpires := Some(None))).value
  }

  /** `updateUserRole(id, role)`, whose body is not in the source files: it is
      taken to be the repository update of the role column alone, so a
      missing key is a no-op like every other `update`. */
  function UpdateUserRole(db: Db, id: nat, role: string): (r: Db)
    ensures OthersUnchanged(db, r, id)
    ensures Find(db, ById(id)).None? ==> r == db
    ensures Find(db, ById(id)).Some? ==>
              Find(r, ById(id)) == Some(Find(db, ById(id)).value.(role := role))
    ensures Find(db, ById(id)).Some? ==> r == Put(db, Find(db, ById(id)).value.(role := role))
  {
    RepoUpdate(db, id, NoChange.(role := Some(role))).value
  }

  /** A row found by any key is the row its own key finds. */
  lemma FoundById(db: Db, k: Key)
    requires Valid(db) && Find(db, k).Some?
    ensures Find(db, ById(Find(db, k).value.id)) == Find(db, k)
  {
    var i := FindIndex(db.users, k).value;
    FindUnique(db, i, ById(db.users[i].id));
  }

  /** On an existing row the increment always succeeds, and it is the write
      of the row with its counter one higher. */
  lemma IncrementWrites(db: Db, u: User)
    requires Find(db, ById(u.id)) == Some(u)
    ensures IncrementFailedAttempts(db, u.id) ==
            Ok(Incremented(Put(db, u.(failedLoginAttempts := u.failedLoginAttempts + 1)), u.failedLoginAttempts + 1))
  {
  }

  /** Setting the lock of an existing row always succeeds and rewrites just
      that column. */
  lemma LockWrites(db: Db, u: User, until: int)
    requires Find(db, ById(u.id)) == Some(u)
    ensures UpdateUser(db, u.id, NoChange.(lockedUntil := Some(Some(until)))) ==
            Ok(Updated(Put(db, u.(lockedUntil := Some(until))), Some(u.(lockedUntil := Some(until)))))
  {
    assert ApplyPatch(u, NoChange.(lockedUntil := Some(Some(until)))) == u.(lockedUntil := Some(until));
  }

  /** Two writes to the same row: the second one wins. */
  lemma PutTwice(db: Db, a: User, b: User)
    requires a.id == b.id
    ensures Put(Put(db, a), b) == Put(db, b)
  {
    match FindIndex(db.users, ById(a.id)) {
      case None =>
      case Some(i) =>
        FindIndexAfterWrite(db.users, i, a, ById(a.id));
        assert db.users[i := a][i := b] == db.users[i := b];
    }
  }

  /** When the email lookup finds nothing, or finds row `id`, no other row
      holds that email. */
  lemma EmailFreeFor(db: Db, id: nat, email: string)
    requires Valid(db)
    requires Find(db, ByEmail(email)).None? || Find(db, ByEmail(email)).value.id == id
    ensures forall j :: 0 <= j < |db.users| && db.users[j].id != id ==> db.users[j].email != email
  {
    forall j | 0 <= j < |db.users| && db.users[j].email == email
      ensures db.users[j].id == id
    {
      FindUnique(db, j, ByEmail(email));
    }
  }

  /** Rewriting a row while keeping every other row's email and Google id
      distinct from the new one keeps the table valid. */
  lemma PutValid(db: Db, u: User)
    requires Valid(db) && Find(db, ById(u.id)).Some?
    requires forall j :: 0 <= j < |db.users| && db.users[j].id != u.id ==> db.users[j].email != u.email
    requires u.googleId.Some? ==>
               forall j :: 0 <= j < |db.users| && db.users[j].id != u.id ==> db.users[j].googleId != u.googleId
    ensures Valid(Put(db, u))
  {
    var i := FindIndex(db.users, ById(u.id)).value;
    var users' := db.users[i := u];
    assert Put(db, u).users == users';
    forall j | 0 <= j < |db.users| && j != i
      ensures db.users[j].id != u.id
    {
      if j < i {
        assert db.users[j].id < db.users[i].id;
      } else {
        assert db.users[i].id < db.users[j].id;
      }
    }
  }

  /** A write that keeps the row's email and Google id keeps the table valid. */
  lemma PutSameKeysValid(db: Db, u: User)
    requires Valid(db) && Find(db, ById(u.id)).Some?
    requires Find(db, ById(u.id)).value.email == u.email
    requires Find(db, ById(u.id)).value.googleId == u.googleId
    ensures Valid(Put(db, u))
  {
    var i := FindIndex(db.users, ById(u.id)).value;
    forall j | 0 <= j < |db.users| && db.users[j].id != u.id
      ensures db.users[j].email != u.email
      ensures u.googleId.Some? ==> db.users[j].googleId != u.googleId
    {
      if j < i {
        assert db.users[j].email != db.users[i].email;
      } else {
        assert j != i;
        assert db.users[i].email != db.users[j].email;
      }
    }
    PutValid(db, u);
  }

  /** After a write, every row is either the written one or an old row. */
  lemma PutRows(db: Db, u: User)
    ensures forall v :: v in Put(db, u).users ==> v == u || v in db.users
  {
    match FindIndex(db.users, ById(u.id)) {
      case None =>
      case Some(i) =>
        forall v | v in db.users[i := u]
          ensures v == u || v in db.users
        {
          var j :| 0 <= j < |db.users| && db.users[i := u][j] == v;
          if j != i {
            assert v == db.users[j];
          }
        }
    }
  }

  /** After a write that keeps the table valid, a unique key the written row
      carries finds it. */
  lemma FindAfterPut(db: Db, u: User, k: Key)
    requires Find(db, ById(u.id)).Some?
    requires Valid(Put(db, u))
    requires Matches(u, k)
    requires k.ById? || k.ByEmail? || k.ByGoogleId?
    ensures Find(Put(db, u), k) == Some(u)
  {
    var i := FindIndex(db.users, ById(u.id)).value;
    FindUnique(Put(db, u), i, k);
  }

  /** After a write, a reset token that only the written row carries finds it. */
  lemma FindResetTokenAfterPut(db: Db, u: User, token: string)
    requires Find(db, ById(u.id)).Some?
    requires u.resetPasswordToken == Some(token)
    requires forall v :: v in db.users && v.id != u.id ==> v.resetPasswordToken != Some(token)
    requires Valid(db)
    ensures Find(Put(db, u), ByResetToken(token)) == Some(u)
  {
    var i := FindIndex(db.users, ById(u.id)).value;
    var users' := Put(db, u).users;
    forall j | 0 <= j < i
      ensures !Matches(users'[j], ByResetToken(token))
    {
      assert users'[j] == db.users[j];
      assert db.users[j].id < db.users[i].id;
    }
    assert Matches(users'[i], ByResetToken(token));
  }

  /** A write is read back by its key, whatever the table holds. */
  lemma FindPutById(db: Db, u: User)
    requires Find(db, ById(u.id)).Some?
    ensures Find(Put(db, u), ById(u.id)) == Some(u)
  {
    var i := FindIndex(db.users, ById(u.id)).value;
    FindIndexAfterWrite(db.users, i, u, ById(u.id));
  }

  /** On a valid table a row's own email finds that row. */
  lemma FoundByEmail(db: Db, id: nat)
    requires Valid(db) && Find(db, ById(id)).Some?
    ensures Find(db, ByEmail(Find(db, ById(id)).value.email)) == Find(db, ById(id))
  {
    var i := FindIndex(db.users, ById(id)).value;
    FindUnique(db, i, ByEmail(db.users[i].email));
  }

  /** An insert the table accepts keeps it valid. */
  lemma CreateUserValid(db: Db, email: string, data: Patch)
    requires Valid(db) && data.email.None?
    requires CreateUser(db, email, data).Ok?
    ensures Valid(CreateUser(db, email, data).value.db)
  {
    var c := CreateUser(db, email, data).value;
    var n := |db.users|;
    assert c.db.users == db.users + [c.user];
    forall i | 0 <= i < n
      ensures c.db.users[i].email != c.user.email
      ensures c.db.users[i].googleId.Some? ==> c.db.users[i].googleId != c.user.googleId
    {
      assert db.users[i] in db.users;
    }
  }

  /** Giving a row an email no other row holds keeps the table valid. */
  lemma PutNewEmailValid(db: Db, u: User)
    requires Valid(db) && Find(db, ById(u.id)).Some?
    requires Find(db, ById(u.id)).value.googleId == u.googleId
    requires forall v :: v in db.users && v.id != u.id ==> v.email != u.email
    ensures Valid(Put(db, u))
  {
    var i := FindIndex(db.users, ById(u.id)).value;
    forall j | 0 <= j < |db.users| && db.users[j].id != u.id
      ensures db.users[j].email != u.email
      ensures u.googleId.Some? ==> db.users[j].googleId != u.googleId
    {
      assert db.users[j] in db.users;
      if j < i {
        assert db.users[j].googleId.Some? ==> db.users[j].googleId != db.users[i].googleId;
      } else {
        assert j != i;
      }
    }
    PutValid(db, u);
  }

  /** A write keeps the number of rows, their keys and the key counter. */
  lemma PutShape(db: Db, u: User)
    requires Find(db, ById(u.id)).Some?
    ensures |Put(db, u).users| == |db.users| && Put(db, u).nextId == db.nextId
    ensures forall j :: 0 <= j < |db.users| ==> Put(db, u).users[j].id == db.users[j].id
  {
  }

  /** Every key a lookup finds was generated before `nextId`. */
  lemma FoundBelowNextId(db: Db, k: Key)
    requires Valid(db) && Find(db, k).Some?
    ensures Find(db, k).value.id < db.nextId
  {
    var i := FindIndex(db.users, k).value;
    assert db.users[i] == Find(db, k).value;
  }
}
