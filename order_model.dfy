/** `OrderSchema` (models/Order.ts): a service request as it is stored. */
module OrderModel {
  import opened Common
  import opened Text
  import opened Schema

  const Statuses: seq<string> := ["pending", "processing", "completed", "cancelled"]

  /** The paths of `OrderSchema`; a request body is read through the same shape (keys
      outside the schema are dropped by Mongoose's strict mode). */
  datatype Order = Order(
    fullName: Field<string>,
    email: Field<string>,
    phone: Field<string>,
    address: Field<string>,
    serviceId: Field<string>,
    serviceName: Field<string>,
    notes: Field<string>,
    status: Field<string>)

  /** Casting on create: the setters, then the defaults. */
  function Cast(b: Order): Order {
    Order(
      Trimmed(b.fullName),
      TrimmedLower(b.email),
      Trimmed(b.phone),
      b.address,
      b.serviceId,
      b.serviceName,
      WithDefault(b.notes, ""),
      WithDefault(b.status, "pending"))
  }

  predicate Valid(o: Order) {
    RequiredText(o.fullName) && RequiredText(o.email) && RequiredText(o.phone)
    && RequiredText(o.address) && RequiredText(o.serviceId) && RequiredText(o.serviceName)
    && InEnum(o.status, Statuses)
  }

  /** `Order.create(body)` */
  function Create(b: Order): (r: Result<Order>)
    ensures r.Ok? ==> Valid(r.value)
    ensures r.Ok? ==> r.value == Cast(b)
    ensures r.Err? ==> r.error == ValidationError("Order") && !Valid(Cast(b))
  {
    var d := Cast(b);
    if Valid(d) then Ok(d) else Err(ValidationError("Order"))
  }

  /** The six required texts are given and not empty (after trimming, for the three
      trimmed ones), and any given status is one of the four. */
  predicate Acceptable(b: Order) {
    b.fullName.Present? && Trim(b.fullName.value) != ""
    && b.email.Present? && Trim(b.email.value) != ""
    && b.phone.Present? && Trim(b.phone.value) != ""
    && RequiredText(b.address) && RequiredText(b.serviceId) && RequiredText(b.serviceName)
    && (b.status.Absent? || (b.status.Present? && b.status.value in Statuses))
  }

  /** Without a status the default "pending" passes the `enum`; a given one must be
      one of the four. */
  lemma StatusAccepted(f: Field<string>)
    ensures InEnum(WithDefault(f, "pending"), Statuses) <==> (f.Absent? || (f.Present? && f.value in Statuses))
  {
    if f.Absent? {
      assert Statuses[0] == "pending";
    }
  }

  /** A body is accepted exactly when it is `Acceptable`; a text of white space
      alone is empty after trimming (`Text.TrimEmptyIffBlank`). */
  lemma CreateAcceptsIff(b: Order)
    ensures Create(b).Ok? <==> Acceptable(b)
  {
    CastValidIff(b);
  }

  lemma CastValidIff(b: Order)
    ensures Valid(Cast(b)) <==> Acceptable(b)
  {
    TrimmedPresent(b.fullName);
    TrimmedPresent(b.email);
    TrimmedPresent(b.phone);
    StatusAccepted(b.status);
  }

  /** What an accepted order stores: names and phone trimmed, the email trimmed and
      lower-cased. */
  lemma CreateNormalises(b: Order)
    requires Create(b).Ok?
    ensures var d := Create(b).value;
      Trim(d.fullName.value) == d.fullName.value && Trim(d.phone.value) == d.phone.value
      && Trim(d.email.value) == d.email.value && IsLower(d.email.value)
      && d.email.value == ToLower(Trim(b.email.value))
  {
    var d := Cast(b);
    assert Create(b).value == d;
    SettersNormalise(b.fullName);
    SettersNormalise(b.phone);
    SettersNormalise(b.email);
  }

  /** The other paths are stored as given, `notes` "" and `status` "pending" when not
      given, and a given status kept as it is (the client may choose any of the four). */
  lemma CreateDefaults(b: Order)
    ensures Create(b).Ok? ==> var d := Create(b).value;
      d.address == b.address && d.serviceId == b.serviceId && d.serviceName == b.serviceName
      && d.notes == (if b.notes.Absent? then Present("") else b.notes)
      && d.status == (if b.status.Absent? then Present("pending") else b.status)
  {
  }

  lemma CastIdempotent(b: Order)
    ensures Cast(Cast(b)) == Cast(b)
  {
    SettersIdempotent(b.fullName);
    SettersIdempotent(b.email);
    SettersIdempotent(b.phone);
  }

  /** Creating from a stored order stores it unchanged. */
  lemma CreateIdempotent(b: Order)
    requires Create(b).Ok?
    ensures Create(Create(b).value) == Create(b)
  {
    CastIdempotent(b);
  }
}
