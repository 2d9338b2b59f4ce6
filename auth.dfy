/** lib/auth.ts: the credentials check behind the admin sign-in, the session lifetime,
    and the `jwt` and `session` callbacks that carry the admin's id into the session. */
module Auth {
  import opened Common
  import opened Text
  import opened Store
  import opened AdminModel

  const MissingCredentials := "Please enter email and password"
  const InvalidCredentials := "Invalid email or password"
  const AuthenticationFailed := "Authentication failed"

  /** `session.maxAge`: thirty days, in seconds. */
  const SessionMaxAge: nat := 30 * 24 * 60 * 60

  lemma SessionMaxAgeIsThirtyDays()
    ensures SessionMaxAge == 2592000
  {
  }

  /** The sign-in form's fields. */
  datatype Credentials = Credentials(email: Field<string>, password: Field<string>)

  /** What `authorize` returns on success. */
  datatype User = User(id: Id, email: Field<string>, name: Field<string>)

  /** `Admin.findOne({ email })`: the first admin with the email, which the query casts
      through the path's setters. */
  function FindByEmail(rows: seq<Row<Admin>>, email: string): (r: Option<Row<Admin>>)
    ensures r.None? <==> forall i :: 0 <= i < |rows| ==> rows[i].doc.email != Present(ToLower(Trim(email)))
    ensures r.Some? ==> exists i :: 0 <= i < |rows| && rows[i] == r.value
                          && r.value.doc.email == Present(ToLower(Trim(email)))
                          && forall j :: 0 <= j < i ==> rows[j].doc.email != Present(ToLower(Trim(email)))
  {
    if rows == [] then None
    else if rows[0].doc.email == Present(ToLower(Trim(email))) then Some(rows[0])
    else
      var r := FindByEmail(rows[1..], email);
      assert r.Some? ==> exists i :: 0 < i < |rows| && rows[i] == r.value
                             && forall j :: 0 <= j < i ==> rows[j].doc.email != Present(ToLower(Trim(email))) by {
        if r.Some? {
          var i :| 0 <= i < |rows| - 1 && rows[1..][i] == r.value
                   && forall j :: 0 <= j < i ==> rows[1..][j].doc.email != Present(ToLower(Trim(email)));
          assert rows[i + 1] == r.value;
          forall j | 0 <= j < i + 1
            ensures rows[j].doc.email != Present(ToLower(Trim(email)))
          {
            if j > 0 {
              assert rows[j] == rows[1..][j - 1];
            }
          }
        }
      }
      assert r.None? ==> forall i :: 0 <= i < |rows| ==> rows[i].doc.email != Present(ToLower(Trim(email))) by {
        if r.None? {
          forall i | 0 < i < |rows|
            ensures rows[i].doc.email != Present(ToLower(Trim(email)))
          {
            assert rows[i] == rows[1..][i - 1];
          }
        }
      }
      r
  }

  /** The `try` block: the connection, the lookup and `bcrypt.compare`, which may
      throw. */
  function Attempt(c: Credentials, fault: Option<Thrown>, rows: seq<Row<Admin>>,
                   compare: (string, Field<string>) -> Result<bool>): Result<User>
    requires c.email.Present? && c.password.Present?
  {
    if fault.Some? then Err(fault.value)
    else
      match FindByEmail(rows, c.email.value)
      case None => Err(JsError(InvalidCredentials))
      case Some(admin) =>
        match compare(c.password.value, admin.doc.password)
        case Err(e) => Err(e)
        case Ok(valid) =>
          if !valid then Err(JsError(InvalidCredentials))
          else Ok(User(admin.id, admin.doc.email, admin.doc.username))
  }

  /** The `catch`: an `Error` is thrown again as it is; anything else becomes
      "Authentication failed". */
  function Rethrow(r: Result<User>): (s: Result<User>)
    ensures s.Ok? <==> r.Ok?
    ensures s.Ok? ==> s == r
    ensures r.Err? && r.error.JsError? ==> s == r
    ensures r.Err? && r.error.NonError? ==> s == Err(JsError(AuthenticationFailed))
  {
    match r
    case Ok(_) => r
    case Err(JsError(_)) => r
    case Err(NonError) => Err(JsError(AuthenticationFailed))
  }

  /** `authorize(credentials)`. It signs in only the admin the lookup finds, when the
      password matches, and every refusal is an `Error`. */
  function Authorize(creds: Option<Credentials>, fault: Option<Thrown>, rows: seq<Row<Admin>>,
                     compare: (string, Field<string>) -> Result<bool>): (r: Result<User>)
    ensures r.Err? ==> r.error.JsError?
    ensures r.Ok? ==> creds.Some? && Truthy(creds.value.email) && Truthy(creds.value.password) && fault.None?
    ensures r.Ok? ==> var found := FindByEmail(rows, creds.value.email.value);
      found.Some? && compare(creds.value.password.value, found.value.doc.password) == Ok(true)
      && r.value == User(found.value.id, found.value.doc.email, found.value.doc.username)
  {
    if creds.None? || !Truthy(creds.value.email) || !Truthy(creds.value.password) then
      Err(JsError(MissingCredentials))
    else Rethrow(Attempt(creds.value, fault, rows, compare))
  }

  /** A missing or empty email or password is refused before the store is touched:
      the answer does not depend on the store, its faults or the password check. */
  lemma MissingRefusedFirst(creds: Option<Credentials>, fault: Option<Thrown>, rows: seq<Row<Admin>>,
                            compare: (string, Field<string>) -> Result<bool>)
    requires creds.None? || !Truthy(creds.value.email) || !Truthy(creds.value.password)
    ensures Authorize(creds, fault, rows, compare) == Err(JsError(MissingCredentials))
  {
  }

  /** An unknown email and a wrong password are refused with the same error, so a
      caller cannot tell which of the two it was. */
  lemma FailuresIndistinguishable(c: Credentials, rows: seq<Row<Admin>>, rows2: seq<Row<Admin>>, i: nat,
                                  compare: (string, Field<string>) -> Result<bool>)
    requires Truthy(c.email) && Truthy(c.password)
    requires forall k :: 0 <= k < |rows| ==> rows[k].doc.email != Present(ToLower(Trim(c.email.value)))
    requires i < |rows2| && rows2[i].doc.email == Present(ToLower(Trim(c.email.value)))
    requires forall k :: 0 <= k < i ==> rows2[k].doc.email != Present(ToLower(Trim(c.email.value)))
    requires compare(c.password.value, rows2[i].doc.password) == Ok(false)
    ensures Authorize(Some(c), None, rows, compare) == Err(JsError(InvalidCredentials))
    ensures Authorize(Some(c), None, rows2, compare) == Err(JsError(InvalidCredentials))
  {
    var r2 := FindByEmail(rows2, c.email.value);
    var j :| 0 <= j < |rows2| && rows2[j] == r2.value && r2.value.doc.email == Present(ToLower(Trim(c.email.value)))
             && forall k :: 0 <= k < j ==> rows2[k].doc.email != Present(ToLower(Trim(c.email.value)));
    assert j == i;
  }

  /** Sign-in succeeds exactly when the lookup finds an admin and the password matches
      it, and then names that admin: its id, its email, and its username as `name`. */
  lemma SuccessNamesAdmin(c: Credentials, rows: seq<Row<Admin>>, compare: (string, Field<string>) -> Result<bool>)
    requires Truthy(c.email) && Truthy(c.password)
    ensures var found := FindByEmail(rows, c.email.value);
      Authorize(Some(c), None, rows, compare).Ok? <==>
        (found.Some? && compare(c.password.value, found.value.doc.password) == Ok(true))
    ensures var found := FindByEmail(rows, c.email.value);
      Authorize(Some(c), None, rows, compare).Ok? ==>
        Authorize(Some(c), None, rows, compare).value
        == User(found.value.id, found.value.doc.email, found.value.doc.username)
  {
  }

  /** Every refusal is an `Error`: a non-`Error` throw from the store or from bcrypt
      becomes "Authentication failed", and an `Error` keeps its message. */
  lemma RefusalsAreErrors(creds: Option<Credentials>, fault: Option<Thrown>, rows: seq<Row<Admin>>,
                          compare: (string, Field<string>) -> Result<bool>)
    ensures Authorize(creds, fault, rows, compare).Err? ==> Authorize(creds, fault, rows, compare).error.JsError?
    ensures creds.Some? && Truthy(creds.value.email) && Truthy(creds.value.password) && fault.Some? ==>
      Authorize(creds, fault, rows, compare) == Err(JsError(MessageOr(fault.value, AuthenticationFailed)))
  {
  }

  /** The JWT the session is kept in. */
  class Token {
    var id: Field<string>

    constructor (id: Field<string>)
      ensures this.id == id
    {
      this.id := id;
    }
  }

  /** `session.user` */
  class SessionUser {
    var id: Field<string>

    constructor (id: Field<string>)
      ensures this.id == id
    {
      this.id := id;
    }
  }

  class Session {
    var user: SessionUser?

    constructor (user: SessionUser?)
      ensures this.user == user
    {
      this.user := user;
    }
  }

  /** The `jwt` callback: on sign-in the token takes the admin's id; otherwise it is
      returned as it was. */
  method Jwt(token: Token, user: Option<User>) returns (r: Token)
    modifies token
    ensures r == token
    ensures user.Some? ==> token.id == Present(user.value.id)
    ensures user.None? ==> token.id == old(token.id)
  {
    if user.Some? {
      token.id := Present(user.value.id);
    }
    return token;
  }

  /** The `session` callback: the token's id is copied onto `session.user` when there
      is one. */
  method SessionCallback(session: Session, token: Token) returns (r: Session)
    modifies session.user
    ensures r == session && session.user == old(session.user)
    ensures session.user != null ==> session.user.id == token.id
  {
    if session.user != null {
      session.user.id := token.id;
    }
    return session;
  }
}
