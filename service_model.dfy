/** `ServiceSchema` (models/Service.ts): a service offered on the site. */
module ServiceModel {
  import opened Common
  import opened Text
  import opened Schema

  /** The paths of `ServiceSchema`. `price` is a JSON number, kept as a `real`. */
  datatype Service = Service(
    name: Field<string>,
    description: Field<string>,
    price: Field<real>,
    images: Field<seq<string>>,
    details: Field<string>)

  /** Casting on create: `name` trimmed, `images` [] when not given. */
  function Cast(b: Service): Service {
    Service(Trimmed(b.name), b.description, b.price, WithDefault(b.images, []), b.details)
  }

  predicate Valid(s: Service) {
    RequiredText(s.name) && RequiredText(s.description)
    && RequiredValue(s.price) && AtLeast(s.price, 0.0)
    && RequiredText(s.details)
  }

  /** `Service.create(body)` */
  function Create(b: Service): (r: Result<Service>)
    ensures r.Ok? ==> Valid(r.value)
    ensures r.Ok? ==> r.value == Cast(b)
    ensures r.Err? ==> r.error == ValidationError("Service") && !Valid(Cast(b))
  {
    var d := Cast(b);
    if Valid(d) then Ok(d) else Err(ValidationError("Service"))
  }

  /** A name that is not empty once trimmed, a description and details, and a price
      that is a number no smaller than 0. */
  predicate Acceptable(b: Service) {
    b.name.Present? && Trim(b.name.value) != ""
    && RequiredText(b.description) && RequiredText(b.details)
    && b.price.Present? && b.price.value >= 0.0
  }

  lemma CastValidIff(b: Service)
    ensures Valid(Cast(b)) <==> Acceptable(b)
  {
    TrimmedPresent(b.name);
  }

  /** A body is accepted exactly when it is `Acceptable`: a missing or `null` price,
      a negative one, or a name of white space alone is refused. */
  lemma CreateAcceptsIff(b: Service)
    ensures Create(b).Ok? <==> Acceptable(b)
  {
    CastValidIff(b);
  }

  /** What an accepted service stores: the name trimmed, the images [] when not given,
      and the other paths as given. */
  lemma CreateStores(b: Service)
    requires Create(b).Ok?
    ensures var d := Create(b).value;
      d.name == Present(Trim(b.name.value)) && Trim(d.name.value) == d.name.value
      && d.images == (if b.images.Absent? then Present([]) else b.images)
      && d.description == b.description && d.price == b.price && d.details == b.details
  {
    var d := Cast(b);
    assert Create(b).value == d;
    SettersNormalise(b.name);
  }

  /** Creating from a stored service stores it unchanged. */
  lemma CreateIdempotent(b: Service)
    requires Create(b).Ok?
    ensures Create(Create(b).value) == Create(b)
  {
    SettersIdempotent(b.name);
    assert Cast(Cast(b)) == Cast(b);
  }
}
