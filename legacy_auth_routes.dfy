/** The older authentication router (backend/src/routes/auth.routes.ts), which the server
    does not mount.  It offers only the e-mail check and sign-up, over the same user table
    and with the same normalisation as the routes of AuthRoutes; its sign-up sets no
    session cookie. */
module LegacyAuthRoutes {
  import opened Wrappers
  import opened JsStrings
  import opened AuthRoutes

  /** GET `/check-email`: 400 for a missing, empty or non-string value, 409 with
      `available: false` for a taken normalised address, 200 with `available: true`
      otherwise.  The table is only read. */
  method CheckEmail(db: UserTable, email: Option<string>) returns (r: Reply)
    ensures r.status in {200, 400, 409}
    ensures r.status == 400 <==> !Given(email)
    ensures r.status == 400 ==> r.body == ErrorBody("Email is required")
    ensures r.status == 409 <==> Given(email) && FindByEmail(db.users, NormalizeEmail(email.value)).Some?
    ensures r.status == 409 ==> r.body == Taken("Email already exists", false)
    ensures r.status == 200 ==> r.body == Available(true)
  {
    if !Given(email) {
      return Reply(400, ErrorBody("Email is required"));
    }
    var existing := FindByEmail(db.users, NormalizeEmail(email.value));
    if existing.Some? {
      return Reply(409, Taken("Email already exists", false));
    }
    r := Reply(200, Available(true));
  }

  /** POST `/register`: 400 when a field is missing or empty, 409 for a taken normalised
      address, both leaving the table as it was; otherwise one user with the trimmed name
      and normalised email is added and 201 carries only its id, name and email. */
  method Register(db: UserTable, name: Option<string>, email: Option<string>, password: Option<string>) returns (r: Reply)
    requires db.Valid()
    modifies db
    ensures db.Valid()
    ensures r.status in {201, 400, 409}
    ensures r.status == 400 <==> !(Given(name) && Given(email) && Given(password))
    ensures r.status == 400 ==> r.body == ErrorBody("All fields are required")
    ensures r.status == 409 <==>
      Given(name) && Given(email) && Given(password) && FindByEmail(old(db.users), NormalizeEmail(email.value)).Some?
    ensures r.status == 409 ==> r.body == ErrorBody("User already exists")
    ensures r.status != 201 ==> db.users == old(db.users) && db.nextId == old(db.nextId) && db.clock == old(db.clock)
    ensures r.status == 201 ==>
      var u := User(old(db.nextId), Trim(name.value), NormalizeEmail(email.value), Hash(password.value), old(db.clock), old(db.clock));
      && db.users == old(db.users) + [u]
      && r.body == UserBody(ViewOf(u))
  {
    if !(Given(name) && Given(email) && Given(password)) {
      return Reply(400, ErrorBody("All fields are required"));
    }
    var existing := FindByEmail(db.users, NormalizeEmail(email.value));
    if existing.Some? {
      return Reply(409, ErrorBody("User already exists"));
    }
    NormalizeEmailIdempotent(email.value);
    var user := db.Create(Trim(name.value), NormalizeEmail(email.value), Hash(password.value));
    r := Reply(201, UserBody(ViewOf(user.value)));
  }

  /** The two routers answer every e-mail check alike. */
  method CheckEmailAgrees(db: UserTable, email: Option<string>) returns (older: Reply, newer: Reply)
    ensures older == newer
  {
    older := CheckEmail(db, email);
    newer := AuthRoutes.CheckEmail(db, email);
  }
}
