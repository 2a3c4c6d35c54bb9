/** The session (src/lib/AuthContext.jsx): sign-up with an e-mail check,
    login by exact e-mail and password match, sign-out, and restoring the
    session from the user id kept in the browser's local storage. */
module AuthContext {
  import opened Common
  import opened Store

  const BAD_CREDENTIALS := "Credenciales incorrectas"
  const EMAIL_TAKEN := "El correo ya está registrado"

  /** A handler's resolved value, or the message of the error it throws. */
  datatype Outcome = Success(user: User) | Failure(message: string)

  predicate UniqueEmails(users: seq<User>)
  {
    forall i, j :: 0 <= i < |users| && 0 <= j < |users| && users[i].email == users[j].email ==> i == j
  }

  /** The login lookup: `.eq('email', email).eq('password', password)`. */
  function Credentials(users: seq<User>, email: string, password: string): seq<User>
  {
    Filter(users, (u: User) => u.email == email && u.password == password)
  }

  function UsersWithId(users: seq<User>, id: Id): seq<User>
  {
    Filter(users, (u: User) => u.id == id)
  }

  class Session {
    const db: Database
    var user: Option<User>
    /** The `autorah_user_id` entry of local storage. */
    var storedId: Option<Id>
    var loading: bool

    constructor (db: Database, storedId: Option<Id>)
      ensures this.db == db && this.storedId == storedId && user == None && loading
    {
      this.db, this.storedId := db, storedId;
      user, loading := None, true;
    }

    /** The mount effect with `fetchUser`: a stored id is looked up with
        `.single()`; a query that fails or does not find exactly one row
        removes the stored id and leaves no user. */
    method Restore(fails: bool)
      modifies this`user, this`storedId, this`loading
      ensures old(storedId).None? ==> user == old(user) && storedId == None
      ensures old(storedId).Some? ==>
        var id := old(storedId).value;
        var found := if fails then None else Single(UsersWithId(db.users, id));
        if found.Some? then user == found && storedId == Some(id)
        else user == None && storedId == None
      ensures !loading
    {
      if storedId.Some? {
        var found := if fails then None else Single(UsersWithId(db.users, storedId.value));
        if found.None? {
          storedId := None;
          user := None;
        } else {
          user := found;
        }
      }
      loading := false;
    }

    /** `login`: exactly one row must match the e-mail and the password. */
    method Login(email: string, password: string, fails: bool) returns (out: Outcome)
      modifies this`user, this`storedId
      ensures var found := if fails then None else Single(Credentials(db.users, email, password));
        if found.None? then out == Failure(BAD_CREDENTIALS) && unchanged(this)
        else out == Success(found.value) && user == found && storedId == Some(found.value.id)
    {
      var found := if fails then None else Single(Credentials(db.users, email, password));
      if found.None? {
        return Failure(BAD_CREDENTIALS);
      }
      user := found;
      storedId := Some(found.value.id);
      out := Success(found.value);
    }

    /** `register`. The existence check is a `.maybeSingle()` whose failure
        is ignored; a found row rejects the e-mail. Otherwise the new row,
        with a server id, is inserted and becomes the session user. */
    method Register(email: string, password: string, fullName: string, role: string,
                    lookupFails: bool, insertFails: bool, insertError: string) returns (out: Outcome)
      modifies db`users, db`nextId, this`user, this`storedId
      ensures var existing := if lookupFails then None else Single(UsersWithEmail(old(db.users), email));
        if existing.Some? then out == Failure(EMAIL_TAKEN) && unchanged(db) && unchanged(this)
        else if insertFails then out == Failure(insertError) && unchanged(db) && unchanged(this)
        else
          var row := User(old(db.nextId), email, password, fullName, role);
          && db.users == old(db.users) + [row] && db.nextId == old(db.nextId) + 1
          && out == Success(row) && user == Some(row) && storedId == Some(row.id)
      ensures !lookupFails && UniqueEmails(old(db.users)) ==> UniqueEmails(db.users)
    {
      var existing := if lookupFails then None else Single(UsersWithEmail(db.users, email));
      if existing.Some? {
        return Failure(EMAIL_TAKEN);
      }
      if insertFails {
        return Failure(insertError);
      }
      var row := User(db.nextId, email, password, fullName, role);
      if !lookupFails && UniqueEmails(db.users) {
        RegisterKeepsUnique(db.users, row);
      }
      db.users := db.users + [row];
      db.nextId := db.nextId + 1;
      user := Some(row);
      storedId := Some(row.id);
      out := Success(row);
    }

    method SignOut()
      modifies this`user, this`storedId
      ensures user == None && storedId == None
    {
      user, storedId := None, None;
    }
  }

  // ---------------------------------------------------------------------------

  /** With unique e-mails, a lookup whose matches all carry one e-mail finds
      at most one row, and none exactly when no row matches. */
  lemma {:induction false} AtMostOneMatch(users: seq<User>, q: User -> bool, email: string)
    requires UniqueEmails(users)
    requires forall u :: q(u) ==> u.email == email
    ensures |Filter(users, q)| <= 1
    ensures Filter(users, q) == [] <==> forall u :: u in users ==> !q(u)
  {
    FilterMembers(users, q);
    if users != [] {
      var t := users[1..];
      assert UniqueEmails(t) by {
        forall i, j | 0 <= i < |t| && 0 <= j < |t| && t[i].email == t[j].email ensures i == j {
          assert users[i + 1].email == users[j + 1].email;
        }
      }
      AtMostOneMatch(t, q, email);
      if q(users[0]) {
        forall k | 0 <= k < |t| ensures !q(t[k]) {
          assert t[k] == users[k + 1];
        }
        FilterEmptyIff(t, q);
      }
    }
  }

  /** Under unique e-mails the `.maybeSingle()` check finds a row exactly
      when the e-mail is taken. */
  lemma EmailCheckIff(users: seq<User>, email: string)
    requires UniqueEmails(users)
    ensures Single(UsersWithEmail(users, email)).Some? <==> exists u :: u in users && u.email == email
  {
    AtMostOneMatch(users, (u: User) => u.email == email, email);
  }

  /** Under unique e-mails login succeeds exactly when a row matches both the
      e-mail and the password, and then returns that row. */
  lemma LoginIff(users: seq<User>, email: string, password: string)
    requires UniqueEmails(users)
    ensures var found := Single(Credentials(users, email, password));
      && (found.Some? <==> exists u :: u in users && u.email == email && u.password == password)
      && (found.Some? ==> found.value in users && found.value.email == email && found.value.password == password)
  {
    var q := (u: User) => u.email == email && u.password == password;
    AtMostOneMatch(users, q, email);
    FilterMembers(users, q);
    if |Credentials(users, email, password)| == 1 {
      assert Credentials(users, email, password)[0] in Credentials(users, email, password);
    }
  }

  /** A row appended with an e-mail nobody has keeps e-mails unique. */
  lemma RegisterKeepsUnique(users: seq<User>, row: User)
    requires UniqueEmails(users) && Single(UsersWithEmail(users, row.email)).None?
    ensures UniqueEmails(users + [row])
    ensures forall u :: u in users ==> u.email != row.email
  {
    EmailCheckIff(users, row.email);
    var r := users + [row];
    forall i, j | 0 <= i < |r| && 0 <= j < |r| && r[i].email == r[j].email ensures i == j {
      if i < |users| && j < |users| {
        assert users[i].email == users[j].email;
      }
    }
  }

  /** Whoever registers can log in with the same credentials and gets the
      registered row back. */
  lemma RegisterThenLogin(users: seq<User>, row: User)
    requires UniqueEmails(users) && Single(UsersWithEmail(users, row.email)).None?
    ensures Single(Credentials(users + [row], row.email, row.password)) == Some(row)
  {
    RegisterKeepsUnique(users, row);
    var q := (u: User) => u.email == row.email && u.password == row.password;
    FilterMembers(users, q);
    FilterEmptyIff(users, q);
    assert Filter(users, q) == [];
    FilterAppend(users, [row], q);
  }
}
