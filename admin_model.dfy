/** `AdminSchema` (models/Admin.ts): an administrator account. `username` and `email`
    carry unique indexes, so the collection never holds two admins with the same
    one. */
module AdminModel {
  import opened Common
  import opened Text
  import opened Schema
  import opened Store

  datatype Admin = Admin(username: Field<string>, email: Field<string>, password: Field<string>)

  /** Casting on create: `username` trimmed, `email` trimmed and lower-cased. */
  function Cast(b: Admin): Admin {
    Admin(Trimmed(b.username), TrimmedLower(b.email), b.password)
  }

  predicate Valid(a: Admin) {
    RequiredText(a.username) && RequiredText(a.email) && RequiredText(a.password)
  }

  /** No two stored admins share a username or an email. */
  predicate Unique(rows: seq<Row<Admin>>) {
    forall i, j :: 0 <= i < j < |rows| ==>
      rows[i].doc.username != rows[j].doc.username && rows[i].doc.email != rows[j].doc.email
  }

  /** Whether a stored admin already has the username or the email of `d`. */
  predicate Clashes(rows: seq<Row<Admin>>, d: Admin) {
    exists i :: 0 <= i < |rows| && (rows[i].doc.username == d.username || rows[i].doc.email == d.email)
  }

  /** The error the driver reports for a unique index violation. */
  const DuplicateKey := JsError("E11000 duplicate key error")

  /** `Admin.create(doc)` against the stored admins: validation, then the unique
      indexes. */
  function Create(rows: seq<Row<Admin>>, b: Admin, stamp: Stamp): (r: Result<seq<Row<Admin>>>)
    ensures r.Ok? ==> r.value == rows + [Row(stamp.id, stamp.at, Cast(b))] && Valid(Cast(b))
    ensures r.Err? ==> !Valid(Cast(b)) || Clashes(rows, Cast(b))
  {
    var d := Cast(b);
    if !Valid(d) then Err(ValidationError("Admin"))
    else if Clashes(rows, d) then Err(DuplicateKey)
    else Ok(rows + [Row(stamp.id, stamp.at, d)])
  }

  /** The unique indexes are an invariant of the collection. */
  lemma CreateKeepsUnique(rows: seq<Row<Admin>>, b: Admin, stamp: Stamp)
    requires Unique(rows)
    ensures Create(rows, b, stamp).Ok? ==> Unique(Create(rows, b, stamp).value)
  {
    if Create(rows, b, stamp).Ok? {
      var r := Create(rows, b, stamp).value;
      var d := Cast(b);
      assert !Clashes(rows, d);
      forall i, j | 0 <= i < j < |r|
        ensures r[i].doc.username != r[j].doc.username && r[i].doc.email != r[j].doc.email
      {
        if j == |rows| {
          assert r[j].doc == d && r[i] == rows[i];
        } else {
          assert r[i] == rows[i] && r[j] == rows[j];
        }
      }
    }
  }

  /** A stored admin's username and email are normalised: no surrounding white space,
      and the email in lower case. */
  lemma CreateNormalises(rows: seq<Row<Admin>>, b: Admin, stamp: Stamp)
    requires Create(rows, b, stamp).Ok?
    ensures var d := Create(rows, b, stamp).value[|rows|].doc;
      d.username == Present(Trim(b.username.value)) && Trim(d.username.value) == d.username.value
      && d.email == Present(ToLower(Trim(b.email.value)))
      && Trim(d.email.value) == d.email.value && IsLower(d.email.value)
      && d.password == b.password
  {
    assert Create(rows, b, stamp).value[|rows|].doc == Cast(b);
    CastNormalises(b);
  }

  lemma CastNormalises(b: Admin)
    requires Valid(Cast(b))
    ensures var d := Cast(b);
      d.username == Present(Trim(b.username.value)) && Trim(d.username.value) == d.username.value
      && d.email == Present(ToLower(Trim(b.email.value)))
      && Trim(d.email.value) == d.email.value && IsLower(d.email.value)
      && d.password == b.password
  {
    SettersNormalise(b.username);
    SettersNormalise(b.email);
  }

  /** Two emails that differ only in ASCII letter case or surrounding white space name the same
      account, so the second is refused. */
  lemma EmailCaseInsensitive(rows: seq<Row<Admin>>, b: Admin, stamp: Stamp, i: nat)
    requires i < |rows| && b.email.Present?
    requires rows[i].doc.email == Present(ToLower(Trim(b.email.value)))
    ensures Create(rows, b, stamp).Err?
  {
    var d := Cast(b);
    assert d.email == rows[i].doc.email;
    assert Clashes(rows, d);
  }
}
