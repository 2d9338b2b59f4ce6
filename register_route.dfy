/** app/api/admin/register/route.ts: the first administrator can register without a
    session; after that only a signed-in administrator can add one. */
module RegisterRoute {
  import opened Common
  import opened Text
  import opened Schema
  import opened Store
  import opened AdminModel

  /** The `data` of a successful registration: no password. */
  datatype Summary = Summary(id: Id, username: Field<string>, email: Field<string>)

  const Refusal := "Unauthorized - Admin authentication required"
  const Exists := "Admin already exists"

  /** `Admin.findOne({ email })`. The filter's email goes through the path's setters;
      a missing one is dropped from the filter, which then matches any admin; `null`
      matches an admin without an email. */
  predicate EmailTaken(rows: seq<Row<Admin>>, email: Field<string>) {
    match email
    case Absent => rows != []
    case Null => exists i :: 0 <= i < |rows| && !rows[i].doc.email.Present?
    case Present(e) => exists i :: 0 <= i < |rows| && rows[i].doc.email == Present(ToLower(Trim(e)))
  }

  /** `bcrypt.hash(password, 10)`: `hash` stands for the digest of a string; anything
      else is refused with bcrypt's own error. */
  function Hash(password: Field<string>, hash: string -> string): Result<string> {
    match password
    case Absent => Err(JsError("Illegal arguments: undefined, number"))
    case Null => Err(JsError("Illegal arguments: object, number"))
    case Present(p) => Ok(hash(p))
  }

  /** POST: the admin count, the session check when there are admins, the duplicate
      check, the hash, then `Admin.create`. Every throw is answered 400 with its
      message. A registration either appends one admin, under the new id and with an
      email no stored admin has, or answers an error and writes nothing. */
  function Register(rows: seq<Row<Admin>>, session: bool, fault: Option<Thrown>, body: Admin,
                    hash: string -> string, stamp: Stamp): (r: (Response<Summary>, seq<Row<Admin>>))
    ensures r.0.status == 201 || r.0.status == 400 || r.0.status == 401
    ensures r.0.status == 401 <==> fault.None? && |rows| > 0 && !session
    ensures r.0.status != 201 ==> r.1 == rows && r.0.body.Failure?
    ensures r.0.status == 201 ==>
      !EmailTaken(rows, body.email) && |r.1| == |rows| + 1 && r.1[..|rows|] == rows && r.1[|rows|].id == stamp.id
  {
    if fault.Some? then (Fail(400, MessageOr(fault.value, "An error occurred")), rows)
    else if |rows| > 0 && !session then (Fail(401, Refusal), rows)
    else if EmailTaken(rows, body.email) then (Fail(400, Exists), rows)
    else
      match Hash(body.password, hash)
      case Err(e) => (Fail(400, MessageOr(e, "An error occurred")), rows)
      case Ok(h) =>
        match AdminModel.Create(rows, Admin(body.username, body.email, Present(h)), stamp)
        case Err(e) => (Fail(400, MessageOr(e, "An error occurred")), rows)
        case Ok(after) =>
          var d := after[|rows|].doc;
          (Response(201, Success(Summary(stamp.id, d.username, d.email))), after)
  }

  method ServeRegister(t: Table<Admin>, session: bool, fault: Option<Thrown>, body: Admin,
                       hash: string -> string, stamp: Stamp) returns (r: Response<Summary>)
    modifies t
    ensures (r, t.rows) == Register(old(t.rows), session, fault, body, hash, stamp)
  {
    if fault.Some? {
      return Fail(400, MessageOr(fault.value, "An error occurred"));
    }
    var count := t.Count();
    if count > 0 && !session {
      return Fail(401, Refusal);
    }
    if EmailTaken(t.rows, body.email) {
      return Fail(400, Exists);
    }
    var hashed := Hash(body.password, hash);
    if hashed.Err? {
      return Fail(400, MessageOr(hashed.error, "An error occurred"));
    }
    var doc := Admin(body.username, body.email, Present(hashed.value));
    var created := AdminModel.Create(t.rows, doc, stamp);
    if created.Err? {
      return Fail(400, MessageOr(created.error, "An error occurred"));
    }
    var row := t.Insert(Cast(doc), stamp);
    r := Response(201, Success(Summary(stamp.id, row.doc.username, row.doc.email)));
  }

  /** Only a 201 writes, and it appends exactly one admin: the body's username and
      email normalised, and the digest of the password in place of the password. The
      answer names that admin and carries no password. */
  lemma RegisterAppendsOne(rows: seq<Row<Admin>>, session: bool, fault: Option<Thrown>, body: Admin,
                           hash: string -> string, stamp: Stamp)
    ensures var (r, after) := Register(rows, session, fault, body, hash, stamp);
      (r.status != 201 ==> after == rows)
      && (r.status == 201 ==>
            body.password.Present?
            && after == rows + [Row(stamp.id, stamp.at, Admin(Trimmed(body.username), TrimmedLower(body.email), Present(hash(body.password.value))))]
            && r.body == Success(Summary(stamp.id, Trimmed(body.username), TrimmedLower(body.email))))
  {
  }

  /** With no admin stored no session is asked for; once one exists, a request without
      a session is refused with 401 and nothing changes. */
  lemma SessionOnlyOnceAdminsExist(rows: seq<Row<Admin>>, fault: Option<Thrown>, body: Admin,
                                   hash: string -> string, stamp: Stamp)
    ensures rows == [] ==> Register(rows, false, fault, body, hash, stamp) == Register(rows, true, fault, body, hash, stamp)
    ensures rows != [] && fault.None? ==> Register(rows, false, fault, body, hash, stamp) == (Fail(401, Refusal), rows)
  {
  }

  /** An email already stored, in any ASCII letter case and with any surrounding white space, is
      answered 400 "Admin already exists" and nothing changes. */
  lemma DuplicateEmailRefused(rows: seq<Row<Admin>>, body: Admin, hash: string -> string, stamp: Stamp, i: nat)
    requires i < |rows| && body.email.Present?
    requires rows[i].doc.email == Present(ToLower(Trim(body.email.value)))
    ensures Register(rows, true, None, body, hash, stamp) == (Fail(400, Exists), rows)
  {
    assert EmailTaken(rows, body.email);
  }

  /** A body without an email is refused as a duplicate as soon as any admin exists,
      since the filter then matches every admin. */
  lemma MissingEmailMatchesAny(rows: seq<Row<Admin>>, body: Admin, hash: string -> string, stamp: Stamp)
    requires rows != [] && body.email.Absent?
    ensures Register(rows, true, None, body, hash, stamp) == (Fail(400, Exists), rows)
  {
  }

  /** No two admins ever share a username or an email. */
  lemma RegisterKeepsUnique(rows: seq<Row<Admin>>, session: bool, fault: Option<Thrown>, body: Admin,
                            hash: string -> string, stamp: Stamp)
    requires Unique(rows)
    ensures Unique(Register(rows, session, fault, body, hash, stamp).1)
  {
    if fault.None? && !(|rows| > 0 && !session) && !EmailTaken(rows, body.email) && body.password.Present? {
      CreateKeepsUnique(rows, Admin(body.username, body.email, Present(hash(body.password.value))), stamp);
    }
  }
}
