/** The authentication routes of the API server (backend/src/routes/auth.ts) over an
    in-memory user table.  Emails are looked up and stored trimmed and lower-cased.  The
    password hash is modelled as an ideal one-way credential, the signed session token
    and its cookie are not modelled, and the user id the protected routes receive is a
    parameter (what the token middleware would have decoded).  Each handler returns the
    HTTP status and JSON body it would send. */
module AuthRoutes {
  import opened Wrappers
  import opened JsStrings
  import opened JsArrays

  /** A stored password.  The hash is ideal: a credential matches exactly the password it
      was made from (the salt is not modelled). */
  datatype Credential = Hashed(secret: string)

  function Hash(password: string): (c: Credential)
    ensures Matches(password, c)
  {
    Hashed(password)
  }

  /** `bcrypt.compare` */
  predicate Matches(password: string, c: Credential) {
    c.secret == password
  }

  datatype User = User(id: nat, name: string, email: string, password: Credential, createdAt: nat, updatedAt: nat)

  /** The `{ id, name, email }` object the routes answer with: never the password. */
  datatype UserView = UserView(id: nat, name: string, email: string)

  /** The fields `GET /me` selects. */
  datatype Profile = Profile(id: nat, name: string, email: string, createdAt: nat, updatedAt: nat)

  datatype Body =
    | ErrorBody(error: string)
    | Taken(error: string, available: bool)
    | Available(available: bool)
    | UserBody(user: UserView)
    | ProfileBody(profile: Profile)
    | MessageBody(message: string)

  datatype Reply = Reply(status: nat, body: Body)

  function ViewOf(u: User): UserView {
    UserView(u.id, u.name, u.email)
  }

  // ---------------------------------------------------------------------------
  // Email normalisation
  // ---------------------------------------------------------------------------

  /** `email.trim().toLowerCase()` */
  function NormalizeEmail(email: string): string {
    Lower(Trim(email))
  }

  /** Normalising twice changes nothing more. */
  lemma NormalizeEmailIdempotent(email: string)
    ensures NormalizeEmail(NormalizeEmail(email)) == NormalizeEmail(email)
  {
    TrimLower(Trim(email));
    TrimIdempotent(email);
    LowerIdempotent(Trim(email));
  }

  /** Emails that differ only in letter case or in surrounding white space normalise to
      the same key, so the table treats them as one address. */
  lemma NormalizeEmailCollides(before: string, email: string, after: string)
    requires AllWhite(before) && AllWhite(after)
    ensures NormalizeEmail(before + email + after) == NormalizeEmail(email)
    ensures NormalizeEmail(Lower(email)) == NormalizeEmail(email)
  {
    TrimPadded(before, email, after);
    TrimLower(email);
    LowerIdempotent(Trim(email));
  }

  /** A request field read with JavaScript truthiness: present and not the empty string.
      A field of white space only counts as given. */
  predicate Given(field: Option<string>) {
    field.Some? && field.value != ""
  }

  // ---------------------------------------------------------------------------
  // The user table
  // ---------------------------------------------------------------------------

  /** `findUnique({ where: { email } })`: the position of the user with this email. */
  function FindByEmail(users: seq<User>, email: string): (r: Option<nat>)
    ensures r.Some? ==> r.value < |users| && users[r.value].email == email
    ensures r.None? <==> forall i :: 0 <= i < |users| ==> users[i].email != email
  {
    if users == [] then None
    else if users[|users| - 1].email == email then Some(|users| - 1)
    else FindByEmail(users[..|users| - 1], email)
  }

  /** `findUnique({ where: { id } })`: the position of the user with this id. */
  function FindById(users: seq<User>, id: nat): (r: Option<nat>)
    ensures r.Some? ==> r.value < |users| && users[r.value].id == id
    ensures r.None? <==> forall i :: 0 <= i < |users| ==> users[i].id != id
  {
    if users == [] then None
    else if users[|users| - 1].id == id then Some(|users| - 1)
    else FindById(users[..|users| - 1], id)
  }

  /** Emails are unique, and ids are unique and below the id counter. */
  predicate UsersValid(users: seq<User>, nextId: nat) {
    && (forall i :: 0 <= i < |users| ==> users[i].id < nextId)
    && (forall i, j :: 0 <= i < j < |users| ==> users[i].email != users[j].email && users[i].id != users[j].id)
  }

  /** Every stored email is in normalised form. */
  predicate EmailsNormalised(users: seq<User>) {
    forall u :: u in users ==> NormalizeEmail(u.email) == u.email
  }

  /** Appending a user with a fresh email and a fresh id keeps emails and ids unique. */
  lemma AppendUserValid(users: seq<User>, nextId: nat, u: User)
    requires UsersValid(users, nextId)
    requires u.id == nextId
    requires FindByEmail(users, u.email).None?
    ensures UsersValid(users + [u], nextId + 1)
  {
    var w := users + [u];
    forall i | 0 <= i < |w| ensures w[i].id < nextId + 1 {
      if i < |users| {
        assert w[i] == users[i];
      }
    }
    forall i, j | 0 <= i < j < |w| ensures w[i].email != w[j].email && w[i].id != w[j].id {
      assert w[i] == users[i];
      if j < |users| {
        assert w[j] == users[j];
      }
    }
  }

  /** Appending a user with a normalised email keeps every email normalised. */
  lemma AppendUserNormalised(users: seq<User>, u: User)
    requires EmailsNormalised(users) && NormalizeEmail(u.email) == u.email
    ensures EmailsNormalised(users + [u])
  {
  }

  /** Removing a user keeps the invariant. */
  lemma RemoveUserValid(users: seq<User>, nextId: nat, i: nat)
    requires i < |users| && UsersValid(users, nextId)
    ensures UsersValid(RemoveAt(users, i), nextId)
  {
    var r := RemoveAt(users, i);
    RemoveAtPositions(users, i);
    forall a | 0 <= a < |r| ensures r[a].id < nextId {
      assert r[a] == users[if a < i then a else a + 1];
    }
    forall a, b | 0 <= a < b < |r| ensures r[a].email != r[b].email && r[a].id != r[b].id {
      var a' := if a < i then a else a + 1;
      var b' := if b < i then b else b + 1;
      assert r[a] == users[a'] && r[b] == users[b'];
    }
  }

  /** Removing a user keeps every other email normalised. */
  lemma RemoveUserNormalised(users: seq<User>, i: nat)
    requires i < |users| && EmailsNormalised(users)
    ensures EmailsNormalised(RemoveAt(users, i))
  {
    var r := RemoveAt(users, i);
    RemoveAtPositions(users, i);
    forall x | x in r ensures NormalizeEmail(x.email) == x.email {
      var a :| 0 <= a < |r| && r[a] == x;
      assert r[a] == users[if a < i then a else a + 1];
    }
  }

  /** Removing the only user with an id removes that id and keeps every other user. */
  lemma RemoveUserKeepsOthers(users: seq<User>, nextId: nat, i: nat)
    requires i < |users| && UsersValid(users, nextId)
    ensures FindById(RemoveAt(users, i), users[i].id).None?
    ensures forall u :: u in users && u.id != users[i].id ==> u in RemoveAt(users, i)
  {
    var r := RemoveAt(users, i);
    RemoveAtPositions(users, i);
    forall j | 0 <= j < |r| ensures r[j].id != users[i].id {
      if j < i {
        assert r[j] == users[j];
      } else {
        assert r[j] == users[j + 1];
      }
    }
    forall u | u in users && u.id != users[i].id ensures u in r {
      var j :| 0 <= j < |users| && users[j] == u;
      if j < i {
        assert r[j] == u;
      } else {
        assert r[j - 1] == u;
      }
    }
  }

  /** Every user of `before` with another id is still in `after`. */
  predicate OthersKept(before: seq<User>, after: seq<User>, id: nat) {
    forall u :: u in before && u.id != id ==> u in after
  }

  /** The facts about removing the user at `i` that deleting by id needs. */
  lemma RemoveUser(users: seq<User>, nextId: nat, i: nat)
    requires i < |users| && UsersValid(users, nextId) && EmailsNormalised(users)
    ensures UsersValid(RemoveAt(users, i), nextId) && EmailsNormalised(RemoveAt(users, i))
    ensures FindById(RemoveAt(users, i), users[i].id).None?
    ensures OthersKept(users, RemoveAt(users, i), users[i].id)
  {
    RemoveUserValid(users, nextId, i);
    RemoveUserNormalised(users, i);
    RemoveUserKeepsOthers(users, nextId, i);
  }

  class UserTable {
    var users: seq<User>
    var nextId: nat
    var clock: nat

    predicate Valid()
      reads this
    {
      UsersValid(users, nextId) && EmailsNormalised(users)
    }

    constructor ()
      ensures Valid() && users == [] && nextId == 0 && clock == 0
    {
      users := [];
      nextId := 0;
      clock := 0;
    }

    /** `prisma.user.create`: appends a user with the next id, stamped with the clock.
        The email column is unique: an email already present makes the call fail, and
        nothing is stored. */
    method Create(name: string, email: string, password: Credential) returns (created: Option<User>)
      requires Valid() && NormalizeEmail(email) == email
      modifies this
      ensures Valid()
      ensures created.None? <==> FindByEmail(old(users), email).Some?
      ensures created.None? ==> users == old(users) && nextId == old(nextId) && clock == old(clock)
      ensures created.Some? ==>
        && created.value == User(old(nextId), name, email, password, old(clock), old(clock))
        && users == old(users) + [created.value]
        && nextId == old(nextId) + 1 && clock == old(clock) + 1
    {
      if FindByEmail(users, email).Some? {
        return None;
      }
      var u := User(nextId, name, email, password, clock, clock);
      AppendUserValid(users, nextId, u);
      AppendUserNormalised(users, u);
      users := users + [u];
      nextId := nextId + 1;
      clock := clock + 1;
      created := Some(u);
    }

    /** `prisma.user.delete({ where: { id } })`: removes the user with that id; an absent
        id makes the call fail, and nothing changes. */
    method DeleteById(id: nat) returns (deleted: bool)
      requires Valid()
      modifies this
      ensures Valid()
      ensures nextId == old(nextId) && clock == old(clock)
      ensures deleted <==> FindById(old(users), id).Some?
      ensures !deleted ==> users == old(users)
      ensures deleted ==> users == RemoveAt(old(users), FindById(old(users), id).value)
      ensures FindById(users, id).None?
      ensures OthersKept(old(users), users, id)
    {
      var found := FindById(users, id);
      if found.None? {
        return false;
      }
      RemoveUser(users, nextId, found.value);
      users := RemoveAt(users, found.value);
      deleted := true;
    }
  }

  // ---------------------------------------------------------------------------
  // Routes
  // ---------------------------------------------------------------------------

  /** GET `/check-email`: a missing, empty or non-string `email` query value (`None` here
      stands for missing and non-string alike) is refused with 400; an address whose
      normalised form is taken answers 409 with `available: false`; any other answers
      200 with `available: true`.  The table is only read. */
  method CheckEmail(db: UserTable, email: Option<string>) returns (r: Reply)
    ensures r.status in {200, 400, 409}
    ensures r.status == 400 <==> !Given(email)
    ensures r.status == 400 ==> r.body == ErrorBody("Email is required")
    ensures r.status == 409 <==> Given(email) && FindByEmail(db.users, NormalizeEmail(email.value)).Some?
    ensures r.status == 409 ==> r.body == Taken("Email already exists", false)
    ensures r.status == 200 ==> r.body == Available(true)
  {
    if !Given(email) {
      return Reply(400, ErrorBody("Email is required"));
    }
    if FindByEmail(db.users, NormalizeEmail(email.value)).Some? {
      return Reply(409, Taken("Email already exists", false));
    }
    r := Reply(200, Available(true));
  }

  /** POST `/register`: a missing or empty field is refused with 400 and a taken
      normalised email with 409, both leaving the table as it was.  Otherwise exactly one
      user is added, with the trimmed name, the normalised email and the hashed password,
      and the answer 201 carries only its id, name and email. */
  method Register(db: UserTable, name: Option<string>, email: Option<string>, password: Option<string>) returns (r: Reply)
    requires db.Valid()
    modifies db
    ensures db.Valid()
    ensures r.status in {201, 400, 409}
    ensures r.status == 400 <==> !(Given(name) && Given(email) && Given(password))
    ensures r.status == 400 ==> r.body == ErrorBody("All fields are required")
    ensures r.status == 409 <==>
      Given(name) && Given(email) && Given(password) && FindByEmail(old(db.users), NormalizeEmail(email.value)).Some?
    ensures r.status == 409 ==> r.body == ErrorBody("User already exists")
    ensures r.status != 201 ==> db.users == old(db.users) && db.nextId == old(db.nextId) && db.clock == old(db.clock)
    ensures r.status == 201 ==>
      var u := User(old(db.nextId), Trim(name.value), NormalizeEmail(email.value), Hash(password.value), old(db.clock), old(db.clock));
      && db.users == old(db.users) + [u]
      && r.body == UserBody(ViewOf(u))
  {
    if !(Given(name) && Given(email) && Given(password)) {
      return Reply(400, ErrorBody("All fields are required"));
    }
    var key := NormalizeEmail(email.value);
    if FindByEmail(db.users, key).Some? {
      return Reply(409, ErrorBody("User already exists"));
    }
    NormalizeEmailIdempotent(email.value);
    var created := db.Create(Trim(name.value), key, Hash(password.value));
    r := Reply(201, UserBody(ViewOf(created.value)));
  }

  /** POST `/login`: a missing or empty field is refused with 400; an unknown email and a
      wrong password get the same 401 answer, so the two cannot be told apart; otherwise
      200 carries the user's id, name and email.  The table is only read. */
  method Login(db: UserTable, email: Option<string>, password: Option<string>) returns (r: Reply)
    ensures r.status in {200, 400, 401}
    ensures r.status == 400 <==> !(Given(email) && Given(password))
    ensures r.status == 400 ==> r.body == ErrorBody("Email and password are required")
    ensures r.status == 401 <==>
      && Given(email) && Given(password)
      && var found := FindByEmail(db.users, NormalizeEmail(email.value));
         found.None? || !Matches(password.value, db.users[found.value].password)
    ensures r.status == 401 ==> r.body == ErrorBody("Invalid credentials")
    ensures r.status == 200 ==>
      var found := FindByEmail(db.users, NormalizeEmail(email.value));
      found.Some? && r.body == UserBody(ViewOf(db.users[found.value]))
  {
    if !(Given(email) && Given(password)) {
      return Reply(400, ErrorBody("Email and password are required"));
    }
    var found := FindByEmail(db.users, NormalizeEmail(email.value));
    if found.None? {
      return Reply(401, ErrorBody("Invalid credentials"));
    }
    var user := db.users[found.value];
    if !Matches(password.value, user.password) {
      return Reply(401, ErrorBody("Invalid credentials"));
    }
    r := Reply(200, UserBody(ViewOf(user)));
  }

  /** GET `/me`: the profile of the signed-in user, or 404 when that user no longer
      exists.  The table is only read. */
  method Me(db: UserTable, userId: nat) returns (r: Reply)
    ensures r.status in {200, 404}
    ensures r.status == 404 <==> FindById(db.users, userId).None?
    ensures r.status == 404 ==> r.body == ErrorBody("User not found")
    ensures r.status == 200 ==>
      var u := db.users[FindById(db.users, userId).value];
      r.body == ProfileBody(Profile(u.id, u.name, u.email, u.createdAt, u.updatedAt))
  {
    var found := FindById(db.users, userId);
    if found.None? {
      return Reply(404, ErrorBody("User not found"));
    }
    var u := db.users[found.value];
    r := Reply(200, ProfileBody(Profile(u.id, u.name, u.email, u.createdAt, u.updatedAt)));
  }

  /** DELETE `/me`: removes the signed-in user and answers 200; when that user is already
      gone the delete fails and the answer is 500.  Either way no user with that id is
      left. */
  method DeleteMe(db: UserTable, userId: nat) returns (r: Reply)
    requires db.Valid()
    modifies db
    ensures db.Valid()
    ensures r.status in {200, 500}
    ensures r.status == 500 <==> FindById(old(db.users), userId).None?
    ensures r.status == 500 ==> r.body == ErrorBody("Failed to delete account") && db.users == old(db.users)
    ensures r.status == 200 ==>
      && r.body == MessageBody("Account deleted successfully")
      && db.users == RemoveAt(old(db.users), FindById(old(db.users), userId).value)
    ensures FindById(db.users, userId).None?
  {
    var deleted := db.DeleteById(userId);
    if !deleted {
      return Reply(500, ErrorBody("Failed to delete account"));
    }
    r := Reply(200, MessageBody("Account deleted successfully"));
  }

  // ---------------------------------------------------------------------------
  // Route sequences
  // ---------------------------------------------------------------------------

  /** Once an address is registered, checking any address with the same normalised form
      (the same one in another letter case or padding, by `NormalizeEmailCollides`)
      reports it taken. */
  method RegisteredEmailIsTaken(db: UserTable, name: string, email: string, password: string, other: string)
    returns (registered: Reply, checked: Reply)
    requires db.Valid() && other != "" && NormalizeEmail(other) == NormalizeEmail(email)
    modifies db
    ensures registered.status == 201 || registered.status == 409 ==> checked.status == 409
  {
    registered := Register(db, Some(name), Some(email), Some(password));
    if registered.status == 201 {
      assert db.users[|db.users| - 1].email == NormalizeEmail(email);
    }
    checked := CheckEmail(db, Some(other));
  }

  /** A user who just registered can log in with the same password. */
  method RegisteredUserCanLogIn(db: UserTable, name: string, email: string, password: string)
    returns (registered: Reply, login: Reply)
    requires db.Valid()
    modifies db
    ensures registered.status == 201 ==> login.status == 200 && login.body == registered.body
  {
    registered := Register(db, Some(name), Some(email), Some(password));
    if registered.status == 201 {
      NormalizeEmailIdempotent(email);
      assert db.users[|db.users| - 1].email == NormalizeEmail(email);
    }
    login := Login(db, Some(email), Some(password));
  }

  /** After the account is deleted, asking for it answers 404. */
  method DeletedUserNotFound(db: UserTable, userId: nat) returns (deleted: Reply, fetched: Reply)
    requires db.Valid()
    modifies db
    ensures fetched.status == 404
  {
    deleted := DeleteMe(db, userId);
    fetched := Me(db, userId);
  }

  /** A name of white space alone is truthy, so it passes the check and is stored
      empty once trimmed. */
  method BlankNameIsStored(db: UserTable, email: string, password: string) returns (r: Reply)
    requires db.Valid() && email != "" && password != ""
    requires FindByEmail(db.users, NormalizeEmail(email)).None?
    modifies db
    ensures r.status == 201 && r.body.UserBody? && r.body.user.name == ""
  {
    BlankIffAllWhite("  ");
    r := Register(db, Some("  "), Some(email), Some(password));
  }
}
