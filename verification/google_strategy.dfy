/** `GoogleStrategy.validate`: maps a Google profile to a local account,
    linking an existing account by email or creating an active one. The
    OAuth handshake and the strategy's configuration are not modelled. */
module GoogleStrategy {
  import opened Base
  import opened UserEntity
  import opened UsersService

  /** The parts of the Google profile `validate` reads: `profile.id` and
      `profile.emails?.[0]?.value`. */
  datatype Profile = Profile(id: string, email: Option<string>)

  /** What `validate` hands to passport: `{ id, email }`. */
  datatype GoogleUser = GoogleUser(id: nat, email: string)

  datatype Validated = Validated(db: Db, user: GoogleUser)

  /** The address of an account created from a profile: `email ?? placeholder`.
      `??` keeps an empty string. */
  function NewAccountEmail(p: Profile): string
  {
    if p.email.Some? then p.email.value else "no-email-" + p.id + "@example.com"
  }

  /** The row `validate` creates when nothing matches. */
  function NewAccount(db: Db, p: Profile): User
  {
    ApplyPatch(Defaults(db.nextId, NewAccountEmail(p)), NoChange.(googleId := Some(Some(p.id)), isActive := Some(true)))
  }

  /** The email is used for linking only when it is truthy. */
  predicate LinkableEmail(p: Profile)
  {
    p.email.Some? && p.email.value != ""
  }

  function Validate(db: Db, p: Profile): (r: Result<Validated>)
    requires Valid(db)
    // an already linked account is returned untouched
    ensures Find(db, ByGoogleId(p.id)).Some? ==>
              var u := Find(db, ByGoogleId(p.id)).value;
              r == Ok(Validated(db, GoogleUser(u.id, u.email)))
    // otherwise an account with the same email is linked and activated
    ensures Find(db, ByGoogleId(p.id)).None? && LinkableEmail(p) && Find(db, ByEmail(p.email.value)).Some? ==>
              var u := Find(db, ByEmail(p.email.value)).value;
              r == Ok(Validated(Put(db, u.(googleId := Some(p.id), isActive := true)), GoogleUser(u.id, u.email)))
    // otherwise a new active, password-less account is created
    ensures Find(db, ByGoogleId(p.id)).None? && !(LinkableEmail(p) && Find(db, ByEmail(p.email.value)).Some?) ==>
              && (r.Err? <==> exists v :: v in db.users && v.email == NewAccountEmail(p))
              && (r.Err? ==> r.error == UniqueViolation)
              && (r.Ok? ==> var u := NewAccount(db, p);
                            && r.value == Validated(Db(db.users + [u], db.nextId + 1), GoogleUser(db.nextId, u.email))
                            && u.id == db.nextId && u.email == NewAccountEmail(p) && u.googleId == Some(p.id)
                            && u.isActive && u.passwordHash.None? && u.role == USER_ROLE)
  {
    var linked := Find(db, ByGoogleId(p.id));
    if linked.Some? then Ok(Validated(db, GoogleUser(linked.value.id, linked.value.email)))
    else
      var byEmail := if LinkableEmail(p) then Find(db, ByEmail(p.email.value)) else None;
      var link := if byEmail.Some?
                  then UpdateUser(db, byEmail.value.id, NoChange.(googleId := Some(Some(p.id)), isActive := Some(true)))
                  else Ok(Updated(db, None));
      match link
      case Err(e) => Err(e)
      case Ok(updated) =>
        if updated.user.Some? then Ok(Validated(updated.db, GoogleUser(updated.user.value.id, updated.user.value.email)))
        else
          match CreateUser(db, NewAccountEmail(p), NoChange.(googleId := Some(Some(p.id)), isActive := Some(true)))
          case Err(e) => Err(e)
          case Ok(created) => Ok(Validated(created.db, GoogleUser(created.user.id, created.user.email)))
  }

  /** `validate` keeps the table valid, and afterwards the profile's Google
      id finds the account it returned. */
  lemma ValidateLinks(db: Db, p: Profile)
    requires Valid(db) && Validate(db, p).Ok?
    ensures Valid(Validate(db, p).value.db)
    ensures Find(Validate(db, p).value.db, ByGoogleId(p.id)).Some?
    ensures Find(Validate(db, p).value.db, ByGoogleId(p.id)).value.id == Validate(db, p).value.user.id
  {
    var v := Validate(db, p).value;
    if Find(db, ByGoogleId(p.id)).None? {
      if LinkableEmail(p) && Find(db, ByEmail(p.email.value)).Some? {
        var u := Find(db, ByEmail(p.email.value)).value;
        var u' := u.(googleId := Some(p.id), isActive := true);
        FoundById(db, ByEmail(p.email.value));
        PutSameKeysValidExceptGoogle(db, u', p.id);
        FindAfterPut(db, u', ByGoogleId(p.id));
      } else {
        var data := NoChange.(googleId := Some(Some(p.id)), isActive := Some(true));
        CreateUserValid(db, NewAccountEmail(p), data);
        FindUnique(v.db, |db.users|, ByGoogleId(p.id));
      }
    }
  }

  /** Setting a Google id that no row holds keeps the table valid. */
  lemma PutSameKeysValidExceptGoogle(db: Db, u: User, gid: string)
    requires Valid(db) && Find(db, ById(u.id)).Some?
    requires Find(db, ById(u.id)).value.email == u.email
    requires u.googleId == Some(gid) && Find(db, ByGoogleId(gid)).None?
    ensures Valid(Put(db, u))
  {
    var i := FindIndex(db.users, ById(u.id)).value;
    forall j | 0 <= j < |db.users| && db.users[j].id != u.id
      ensures db.users[j].email != u.email
      ensures db.users[j].googleId != u.googleId
    {
      assert db.users[j] in db.users;
      if j < i {
        assert db.users[j].email != db.users[i].email;
      } else {
        assert j != i;
        assert db.users[i].email != db.users[j].email;
      }
    }
    PutValid(db, u);
  }

  /** Signing in again with the same profile changes nothing and returns the
      same account. */
  lemma SecondSignInIsStable(db: Db, p: Profile)
    requires Valid(db) && Validate(db, p).Ok?
    ensures Valid(Validate(db, p).value.db)
    ensures Validate(Validate(db, p).value.db, p) == Ok(Validate(db, p).value)
  {
    var v := Validate(db, p).value;
    ValidateLinks(db, p);
    var u := Find(v.db, ByGoogleId(p.id)).value;
    assert u.id == v.user.id;
    assert u.email == v.user.email by {
      if Find(db, ByGoogleId(p.id)).None? {
        if LinkableEmail(p) && Find(db, ByEmail(p.email.value)).Some? {
          var w := Find(db, ByEmail(p.email.value)).value;
          FoundById(db, ByEmail(p.email.value));
          FindPutById(db, w.(googleId := Some(p.id), isActive := true));
          FindUnique(v.db, FindIndex(v.db.users, ByGoogleId(p.id)).value, ById(u.id));
        } else {
          FindUnique(v.db, |db.users|, ByGoogleId(p.id));
        }
      }
    }
  }
}
