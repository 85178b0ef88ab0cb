/** Sign-up, login and logout of `auth.controller.ts`: the validation pipeline shared by lessons
    5, 6, 10 and 15, the `users` table it writes, and the session it assigns. */
module Auth {
  import opened Wrappers
  import opened Seqs
  import opened JsStrings
  import opened Http

  /** One row of `users (id, name, email, username, password)`; `name` may be NULL. */
  datatype UserRow = UserRow(id: int, name: Option<string>, email: string, username: string, password: string)

  /** The four body fields of a sign-up; `None` is a field the client did not send. */
  datatype SignUp = SignUp(name: Option<string>, email: Option<string>, username: Option<string>,
                           password: Option<string>)

  /** `userData`: the normalised record about to be stored. */
  datatype UserData = UserData(name: string, email: string, username: string, password: string)

  /** Outcome of the validation prefix: the record to store, or the reply that ends the request. */
  datatype Checked = Accepted(data: UserData) | Refused(reply: Response)

  predicate AllPresent(body: SignUp) {
    Truthy(body.name) && Truthy(body.email) && Truthy(body.username) && Truthy(body.password)
  }

  /** One character of the class `[a-zA-Z0-9_-]`. */
  predicate UsernameChar(c: char) {
    ('a' <= c <= 'z') || ('A' <= c <= 'Z') || ('0' <= c <= '9') || c == '_' || c == '-'
  }

  /** `/^[a-zA-Z0-9_-]{1,20}$/.test(s)`; without the `m` flag the anchors hold the whole string. */
  predicate ValidUsername(s: string) {
    1 <= |s| <= 20 && forall i :: 0 <= i < |s| ==> UsernameChar(s[i])
  }

  /** `email.trim().toLowerCase()`. */
  function NormalEmail(email: string): string {
    ToLower(JsTrim(email))
  }

  const FieldsRequired := "All fields are required"
  const BadUsername := "Username may only contain letters, numbers, hyphen, and underscore"
  const BadEmail := "Invalid email format"
  const EmailTaken := "Email is already registered, please login"
  const UsernameTaken := "Username is already registered, please login"
  const RegistrationFailed := "Registration failed. Please try again."
  const InvalidCredentials := "Invalid credentials, the user doesn't exist or password doesn't match!"

  /** The validation prefix of `registerUser`: required fields on the raw body, then the trimmed
      username against the pattern, then `isEmail` on the normalised email. */
  function ValidateSignUp(body: SignUp, isEmail: string -> bool): (r: Checked)
    ensures !AllPresent(body) <==> r == Refused(ErrorReply(400, FieldsRequired))
    ensures AllPresent(body) && !ValidUsername(JsTrim(body.username.value)) ==>
      r == Refused(ErrorReply(400, BadUsername))
    ensures (AllPresent(body) && ValidUsername(JsTrim(body.username.value)) &&
             !isEmail(NormalEmail(body.email.value))) ==> r == Refused(ErrorReply(400, BadEmail))
    ensures r.Accepted? <==>
      AllPresent(body) && ValidUsername(JsTrim(body.username.value)) && isEmail(NormalEmail(body.email.value))
    ensures r.Accepted? ==> r.data == UserData(JsTrim(body.name.value), NormalEmail(body.email.value),
                                               JsTrim(body.username.value), body.password.value)
  {
    if !AllPresent(body) then Refused(ErrorReply(400, FieldsRequired))
    else
      var name := JsTrim(body.name.value);
      var email := NormalEmail(body.email.value);
      var username := JsTrim(body.username.value);
      assert |BadUsername| != |FieldsRequired| && |BadEmail| != |FieldsRequired|;
      if !ValidUsername(username) then Refused(ErrorReply(400, BadUsername))
      else if !isEmail(email) then Refused(ErrorReply(400, BadEmail))
      else Accepted(UserData(name, email, username, body.password.value))
  }

  /** What an accepted sign-up stores is already in normal form: trimming or lower-casing it
      again changes nothing, and it passes both checks. */
  lemma AcceptedIsNormalised(body: SignUp, isEmail: string -> bool)
    requires ValidateSignUp(body, isEmail).Accepted?
    ensures var d := ValidateSignUp(body, isEmail).data;
      && JsTrim(d.name) == d.name && JsTrim(d.username) == d.username
      && JsTrim(d.email) == d.email && ToLower(d.email) == d.email
      && ValidUsername(d.username) && isEmail(d.email)
      && d.password == body.password.value
  {
    var e := JsTrim(body.email.value);
    JsTrimIdempotent(body.name.value);
    JsTrimIdempotent(body.username.value);
    JsTrimIdempotent(body.email.value);
    JsTrimToLower(e);
    ToLowerIdempotent(e);
  }

  /** A username of spaces passes the required-field check but not the pattern. */
  lemma BlankUsernameRefused(body: SignUp, isEmail: string -> bool)
    requires AllPresent(body)
    requires forall i :: 0 <= i < |body.username.value| ==> IsWhiteSpace(body.username.value[i])
    ensures ValidateSignUp(body, isEmail) == Refused(ErrorReply(400, BadUsername))
  {
    assert JsTrim(body.username.value) == [];
  }

  /** Lesson 5: the validation alone; an accepted sign-up gets no reply at all. */
  function RegisterV05(body: SignUp, isEmail: string -> bool): (r: Option<Response>)
    ensures r.None? <==> ValidateSignUp(body, isEmail).Accepted?
    ensures r.Some? ==> r.value.status == 400
    ensures r.Some? ==> ValidateSignUp(body, isEmail).Refused? && r.value == ValidateSignUp(body, isEmail).reply
  {
    match ValidateSignUp(body, isEmail)
    case Accepted(_) => None
    case Refused(reply) => Some(reply)
  }

  /** The `users` table and its AUTOINCREMENT counter, as one value. */
  datatype UsersState = UsersState(rows: seq<UserRow>, nextId: int)

  /** Ids positive, below the counter and increasing; email and username UNIQUE. */
  predicate UsersWellFormed(t: UsersState) {
    && t.nextId >= 1
    && (forall i :: 0 <= i < |t.rows| ==> 1 <= t.rows[i].id < t.nextId)
    && (forall i, j :: 0 <= i < j < |t.rows| ==> t.rows[i].id < t.rows[j].id)
    && (forall i, j :: 0 <= i < j < |t.rows| ==>
          t.rows[i].email != t.rows[j].email && t.rows[i].username != t.rows[j].username)
  }

  function WithEmail(email: string): UserRow -> bool {
    (r: UserRow) => r.email == email
  }

  function WithUsername(username: string): UserRow -> bool {
    (r: UserRow) => r.username == username
  }

  function WithId(id: int): UserRow -> bool {
    (r: UserRow) => r.id == id
  }

  /** `SELECT * FROM users WHERE email = ? OR username = ?` with `.get`. Both columns are UNIQUE,
      so SQLite answers the OR by one index lookup per term, in the order the terms are written:
      the row holding the email comes first, and the row holding the username only when no row
      holds the email. */
  function ConflictLookup(rows: seq<UserRow>, email: string, username: string): (r: Option<UserRow>)
    ensures r.None? <==> forall j :: 0 <= j < |rows| ==> rows[j].email != email && rows[j].username != username
    ensures r.Some? ==> r.value in rows && (r.value.email == email || r.value.username == username)
    ensures (exists j :: 0 <= j < |rows| && rows[j].email == email) ==> r.Some? && r.value.email == email
  {
    match FirstIndex(rows, WithEmail(email))
    case Some(i) => Some(rows[i])
    case None =>
      match FirstIndex(rows, WithUsername(username))
      case Some(i) => Some(rows[i])
      case None => None
  }

  /** The conflict check of `registerUser`: the email error when the row found holds the email,
      else the username error. */
  function ConflictReply(rows: seq<UserRow>, email: string, username: string): (r: Option<Response>)
    ensures r.None? <==> forall j :: 0 <= j < |rows| ==> rows[j].email != email && rows[j].username != username
    ensures r.Some? ==> r.value == ErrorReply(400, EmailTaken) || r.value == ErrorReply(400, UsernameTaken)
  {
    match ConflictLookup(rows, email, username)
    case None => None
    case Some(row) =>
      if row.email == email then Some(ErrorReply(400, EmailTaken))
      else Some(ErrorReply(400, UsernameTaken))
  }

  /** Whatever the username, a taken email is reported as such. */
  lemma EmailConflictReported(rows: seq<UserRow>, email: string, username: string, i: nat)
    requires i < |rows| && rows[i].email == email
    ensures ConflictReply(rows, email, username) == Some(ErrorReply(400, EmailTaken))
  {
    assert exists j :: 0 <= j < |rows| && rows[j].email == email by {
      assert rows[i].email == email;
    }
  }

  /** With the email free, a taken username is reported as such. */
  lemma UsernameConflictReported(rows: seq<UserRow>, email: string, username: string, i: nat)
    requires forall j :: 0 <= j < |rows| ==> rows[j].email != email
    requires i < |rows| && rows[i].username == username
    ensures ConflictReply(rows, email, username) == Some(ErrorReply(400, UsernameTaken))
  {
    assert !(forall j :: 0 <= j < |rows| ==> rows[j].email != email && rows[j].username != username) by {
      assert rows[i].username == username;
    }
  }

  /** A sign-up whose username belongs to one user and whose email to a later one is told about
      the email, although the first row with either is the username's. */
  lemma EmailErrorWhileUsernameTaken()
    ensures ConflictReply([UserRow(1, None, "a@x.io", "bob", "h1"), UserRow(2, None, "c@x.io", "carol", "h2")],
                          "c@x.io", "bob") == Some(ErrorReply(400, EmailTaken))
  {
    var rows := [UserRow(1, None, "a@x.io", "bob", "h1"), UserRow(2, None, "c@x.io", "carol", "h2")];
    EmailConflictReported(rows, "c@x.io", "bob", 1);
  }

  /** `INSERT INTO users (name, email, username, password) VALUES (?, ?, ?, ?)`. */
  function Inserted(t: UsersState, d: UserData): UsersState {
    UsersState(t.rows + [UserRow(t.nextId, Some(d.name), d.email, d.username, d.password)], t.nextId + 1)
  }

  /** An insert after a clean conflict lookup keeps ids and logins unique. */
  lemma InsertKeepsUnique(t: UsersState, d: UserData)
    requires UsersWellFormed(t)
    requires ConflictReply(t.rows, d.email, d.username).None?
    ensures UsersWellFormed(Inserted(t, d))
  {
  }

  /** Reading the new row back by its id (`SELECT ... WHERE id = ?` with `.get`) finds the row
      just inserted. */
  lemma ReadBackInserted(t: UsersState, d: UserData)
    requires UsersWellFormed(t)
    ensures FirstIndex(Inserted(t, d).rows, WithId(t.nextId)) == Some(|t.rows|)
  {
    FirstIndexOf(Inserted(t, d).rows, WithId(t.nextId), |t.rows|);
  }

  /** Once registered, the same email or the same username is refused. */
  lemma SecondRegistrationRefused(t: UsersState, d: UserData, email: string, username: string)
    requires email == d.email || username == d.username
    ensures ConflictReply(Inserted(t, d).rows, email, username).Some?
  {
    var rows := Inserted(t, d).rows;
    assert rows[|t.rows|].email == email || rows[|t.rows|].username == username;
  }

  /** The record with the password replaced by `bcrypt.hash(password, salt)`. */
  function Hashed(d: UserData, hash: (string, string) -> string, salt: string): UserData {
    d.(password := hash(d.password, salt))
  }

  /** The `users` table as the handlers change it in place. */
  class UsersTable {
    var rows: seq<UserRow>
    var nextId: int

    function State(): UsersState
      reads this
    {
      UsersState(rows, nextId)
    }

    predicate Valid()
      reads this
    {
      UsersWellFormed(State())
    }

    constructor ()
      ensures State() == UsersState([], 1) && Valid()
    {
      rows := [];
      nextId := 1;
    }

    /** `INSERT INTO users ...`; `lastInsertRowid` is the id handed out. */
    method InsertUser(d: UserData) returns (id: int)
      modifies this
      ensures id == old(nextId) && State() == Inserted(old(State()), d)
    {
      id := nextId;
      rows := rows + [UserRow(id, Some(d.name), d.email, d.username, d.password)];
      nextId := nextId + 1;
    }

    /** Lesson 6: validation, the conflict lookup and the insert, with the password stored as
        sent and no session. */
    method RegisterV06(body: SignUp, isEmail: string -> bool, fault: bool) returns (resp: Response)
      requires Valid()
      modifies this
      ensures Valid()
      ensures ValidateSignUp(body, isEmail).Refused? ==>
        resp == ValidateSignUp(body, isEmail).reply && unchanged(this)
      ensures ValidateSignUp(body, isEmail).Accepted? ==>
        var d := ValidateSignUp(body, isEmail).data;
        && (fault ==> resp == ErrorReply(500, RegistrationFailed) && unchanged(this))
        && (!fault && ConflictReply(old(rows), d.email, d.username).Some? ==>
              resp == ConflictReply(old(rows), d.email, d.username).value && unchanged(this))
        && (!fault && ConflictReply(old(rows), d.email, d.username).None? ==>
              resp == MessageReply(201, "User registered successfully") &&
              State() == Inserted(old(State()), d) && rows[|rows| - 1].password == body.password.value)
    {
      var checked := ValidateSignUp(body, isEmail);
      if checked.Refused? {
        return checked.reply;
      }
      var d := checked.data;
      if fault {
        return ErrorReply(500, RegistrationFailed);
      }
      var conflict := ConflictReply(rows, d.email, d.username);
      if conflict.Some? {
        return conflict.value;
      }
      InsertKeepsUnique(State(), d);
      var _ := InsertUser(d);
      resp := MessageReply(201, "User registered successfully");
    }

    /** Lesson 10: as lesson 6 but the password is hashed, and the new row is read back by its
        id to fill `session.user` with its id, email and username. */
    method RegisterV10(body: SignUp, isEmail: string -> bool, hash: (string, string) -> string,
                       salt: string, fault: bool, session: Session)
      returns (resp: Response)
      requires Valid()
      modifies this, session
      ensures Valid()
      ensures ValidateSignUp(body, isEmail).Refused? ==>
        resp == ValidateSignUp(body, isEmail).reply && unchanged(this, session)
      ensures ValidateSignUp(body, isEmail).Accepted? ==>
        var d := Hashed(ValidateSignUp(body, isEmail).data, hash, salt);
        && (fault ==> resp == ErrorReply(500, RegistrationFailed) && unchanged(this, session))
        && (!fault && ConflictReply(old(rows), d.email, d.username).Some? ==>
              resp == ConflictReply(old(rows), d.email, d.username).value && unchanged(this, session))
        && (!fault && ConflictReply(old(rows), d.email, d.username).None? ==>
              && resp == MessageReply(201, "User registered successfully")
              && State() == Inserted(old(State()), d)
              && session.user == Some(SessionUser(old(nextId), Some(d.email), Some(d.username))))
    {
      var checked := ValidateSignUp(body, isEmail);
      if checked.Refused? {
        return checked.reply;
      }
      var d := Hashed(checked.data, hash, salt);
      if fault {
        return ErrorReply(500, RegistrationFailed);
      }
      var conflict := ConflictReply(rows, d.email, d.username);
      if conflict.Some? {
        return conflict.value;
      }
      InsertKeepsUnique(State(), d);
      ReadBackInserted(State(), d);
      var newId := InsertUser(d);
      var newUser := rows[FirstIndex(rows, WithId(newId)).value];
      session.user := Some(SessionUser(newUser.id, Some(newUser.email), Some(newUser.username)));
      resp := MessageReply(201, "User registered successfully");
    }

    /** Lesson 15: hashed password, `session.user = { id }` from `lastInsertRowid`, and the
        shorter success message. */
    method RegisterV15(body: SignUp, isEmail: string -> bool, hash: (string, string) -> string,
                       salt: string, fault: bool, session: Session)
      returns (resp: Response)
      requires Valid()
      modifies this, session
      ensures Valid()
      ensures ValidateSignUp(body, isEmail).Refused? ==>
        resp == ValidateSignUp(body, isEmail).reply && unchanged(this, session)
      ensures ValidateSignUp(body, isEmail).Accepted? ==>
        var d := Hashed(ValidateSignUp(body, isEmail).data, hash, salt);
        && (fault ==> resp == ErrorReply(500, RegistrationFailed) && unchanged(this, session))
        && (!fault && ConflictReply(old(rows), d.email, d.username).Some? ==>
              resp == ConflictReply(old(rows), d.email, d.username).value && unchanged(this, session))
        && (!fault && ConflictReply(old(rows), d.email, d.username).None? ==>
              && resp == MessageReply(201, "User registered")
              && State() == Inserted(old(State()), d)
              && session.user == Some(IdOnly(old(nextId))))
    {
      var checked := ValidateSignUp(body, isEmail);
      if checked.Refused? {
        return checked.reply;
      }
      var d := Hashed(checked.data, hash, salt);
      if fault {
        return ErrorReply(500, RegistrationFailed);
      }
      var conflict := ConflictReply(rows, d.email, d.username);
      if conflict.Some? {
        return conflict.value;
      }
      InsertKeepsUnique(State(), d);
      var newId := InsertUser(d);
      session.user := Some(IdOnly(newId));
      resp := MessageReply(201, "User registered");
    }
  }

  /** What `loginUser` decides before touching the session. */
  datatype LoginOutcome = Denied(reply: Response) | Granted(id: int)

  /** `rows[i]` is the first row with this username, the one `.get` returns. */
  predicate FirstWithUsername(rows: seq<UserRow>, name: string, i: int) {
    0 <= i < |rows| && rows[i].username == name && forall j :: 0 <= j < i ==> rows[j].username != name
  }

  /** There is never more than one first row. */
  lemma FirstWithUsernameUnique(rows: seq<UserRow>, name: string, i: int, k: int)
    requires FirstWithUsername(rows, name, i) && FirstWithUsername(rows, name, k)
    ensures i == k
  {
  }

  /** `loginUser`: both fields on the raw body, then the trimmed username looked up with
      `.get`, then `bcrypt.compare` of the untrimmed password with the stored hash. */
  function Login(rows: seq<UserRow>, username: Option<string>, password: Option<string>,
                 compare: (string, string) -> bool, fault: bool): (r: LoginOutcome)
    ensures !(Truthy(username) && Truthy(password)) ==> r == Denied(ErrorReply(400, FieldsRequired))
    ensures Truthy(username) && Truthy(password) && fault ==>
      r == Denied(ErrorReply(500, "Login failed. Please try again."))
    ensures Truthy(username) && Truthy(password) && !fault && r.Denied? ==>
      r.reply == ErrorReply(400, InvalidCredentials)
    ensures r.Granted? <==> (
      && !fault && Truthy(username) && Truthy(password)
      && exists i :: FirstWithUsername(rows, JsTrim(username.value), i) && compare(password.value, rows[i].password))
    ensures r.Granted? ==> exists i :: FirstWithUsername(rows, JsTrim(username.value), i) && rows[i].id == r.id
  {
    if !(Truthy(username) && Truthy(password)) then Denied(ErrorReply(400, FieldsRequired))
    else if fault then Denied(ErrorReply(500, "Login failed. Please try again."))
    else
      var name := JsTrim(username.value);
      match FirstIndex(rows, WithUsername(name))
      case None =>
        assert forall i :: !FirstWithUsername(rows, name, i) by {
          forall i | 0 <= i < |rows|
            ensures rows[i].username != name
          {
            assert !WithUsername(name)(rows[i]);
          }
        }
        Denied(ErrorReply(400, InvalidCredentials))
      case Some(i) =>
        assert FirstWithUsername(rows, name, i) by {
          assert WithUsername(name)(rows[i]);
          forall j | 0 <= j < i
            ensures rows[j].username != name
          {
            assert !WithUsername(name)(rows[j]);
          }
        }
        assert forall k :: FirstWithUsername(rows, name, k) ==> k == i by {
          forall k | FirstWithUsername(rows, name, k)
            ensures k == i
          {
            FirstWithUsernameUnique(rows, name, i, k);
          }
        }
        if !compare(password.value, rows[i].password) then Denied(ErrorReply(400, InvalidCredentials))
        else Granted(rows[i].id)
  }

  /** An unknown username is refused with the credentials message. */
  lemma UnknownUserDenied(rows: seq<UserRow>, unknown: string, password: string, compare: (string, string) -> bool)
    requires unknown != [] && password != []
    requires forall j :: 0 <= j < |rows| ==> rows[j].username != JsTrim(unknown)
    ensures Login(rows, Some(unknown), Some(password), compare, false) == Denied(ErrorReply(400, InvalidCredentials))
  {
    assert FirstIndex(rows, WithUsername(JsTrim(unknown))) == None by {
      forall j | 0 <= j < |rows|
        ensures !WithUsername(JsTrim(unknown))(rows[j])
      {
      }
    }
  }

  /** A wrong password for the first row with that username is refused with the same message. */
  lemma WrongPasswordDenied(rows: seq<UserRow>, known: string, wrong: string, compare: (string, string) -> bool,
                            i: int)
    requires known != [] && wrong != []
    requires FirstWithUsername(rows, JsTrim(known), i) && !compare(wrong, rows[i].password)
    ensures Login(rows, Some(known), Some(wrong), compare, false) == Denied(ErrorReply(400, InvalidCredentials))
  {
    FirstIndexOf(rows, WithUsername(JsTrim(known)), i);
  }

  /** Login does not tell an unknown username from a wrong password: both get the same reply. */
  lemma LoginIndistinguishable(rows: seq<UserRow>, unknown: string, known: string, wrong: string,
                               password: string, compare: (string, string) -> bool)
    requires unknown != [] && known != [] && wrong != [] && password != []
    requires forall j :: 0 <= j < |rows| ==> rows[j].username != JsTrim(unknown)
    requires exists i :: FirstWithUsername(rows, JsTrim(known), i) && !compare(wrong, rows[i].password)
    ensures Login(rows, Some(unknown), Some(password), compare, false)
         == Login(rows, Some(known), Some(wrong), compare, false)
         == Denied(ErrorReply(400, InvalidCredentials))
  {
    var i :| FirstWithUsername(rows, JsTrim(known), i) && !compare(wrong, rows[i].password);
    UnknownUserDenied(rows, unknown, password, compare);
    WrongPasswordDenied(rows, known, wrong, compare, i);
  }

  /** A user who has just registered can log in with the same username and password, given
      that `bcrypt.compare` accepts a password against its own hash. */
  lemma RegisterThenLogin(t: UsersState, body: SignUp, isEmail: string -> bool,
                          hash: (string, string) -> string, salt: string, compare: (string, string) -> bool)
    requires ValidateSignUp(body, isEmail).Accepted?
    requires var d := ValidateSignUp(body, isEmail).data; ConflictReply(t.rows, d.email, d.username).None?
    requires compare(body.password.value, hash(body.password.value, salt))
    ensures var d := Hashed(ValidateSignUp(body, isEmail).data, hash, salt);
      Login(Inserted(t, d).rows, body.username, body.password, compare, false) == Granted(t.nextId)
  {
    var d := Hashed(ValidateSignUp(body, isEmail).data, hash, salt);
    var rows := Inserted(t, d).rows;
    assert forall j :: 0 <= j < |t.rows| ==> rows[j] == t.rows[j];
    FirstIndexOf(rows, WithUsername(JsTrim(body.username.value)), |t.rows|);
  }

  /** `loginUser`: on success `session.user = { id }` and "Logged in"; any refusal leaves the
      session as it was. */
  method LoginUser(users: UsersTable, session: Session, username: Option<string>, password: Option<string>,
                   compare: (string, string) -> bool, fault: bool)
    returns (resp: Response)
    modifies session
    ensures Login(users.rows, username, password, compare, fault).Denied? ==>
      resp == Login(users.rows, username, password, compare, fault).reply && unchanged(session)
    ensures Login(users.rows, username, password, compare, fault).Granted? ==>
      resp == MessageReply(200, "Logged in") &&
      session.user == Some(IdOnly(Login(users.rows, username, password, compare, fault).id))
  {
    match Login(users.rows, username, password, compare, fault)
    case Denied(reply) =>
      resp := reply;
    case Granted(id) =>
      session.user := Some(IdOnly(id));
      resp := MessageReply(200, "Logged in");
  }

  /** `logoutUser`: `req.session.destroy`, whose callback either reports the failure or clears
      the `connect.sid` cookie; `cleared` is the cookie cleared, if any. */
  method LogoutUser(session: Session, destroyFails: bool) returns (resp: Response, cleared: Option<string>)
    modifies session
    ensures destroyFails ==>
      resp == ErrorReply(500, "Error while trying to logout") && cleared == None && unchanged(session)
    ensures !destroyFails ==>
      resp == MessageReply(200, "Logged out") && cleared == Some("connect.sid") && session.user == None
  {
    if destroyFails {
      return ErrorReply(500, "Error while trying to logout"), None;
    }
    session.user := None;
    resp, cleared := MessageReply(200, "Logged out"), Some("connect.sid");
  }
}

