/** `PortfolioSchema` (models/Portfolio.ts): one gallery image. */
module PortfolioModel {
  import opened Common
  import opened Text
  import opened Schema

  datatype Portfolio = Portfolio(
    imageUrl: Field<string>,
    title: Field<string>,
    description: Field<string>,
    order: Field<int>)

  /** Casting on create: the three texts trimmed, `title` and `description` "" and
      `order` 0 when not given. */
  function Cast(b: Portfolio): Portfolio {
    Portfolio(
      Trimmed(b.imageUrl),
      WithDefault(Trimmed(b.title), ""),
      WithDefault(Trimmed(b.description), ""),
      WithDefault(b.order, 0))
  }

  predicate Valid(p: Portfolio) {
    RequiredText(p.imageUrl)
  }

  /** `Portfolio.create(doc)` */
  function Create(b: Portfolio): (r: Result<Portfolio>)
    ensures r.Ok? ==> Valid(r.value)
    ensures r.Ok? ==> r.value == Cast(b)
    ensures r.Err? ==> r.error == ValidationError("Portfolio") && !Valid(Cast(b))
  {
    var d := Cast(b);
    if Valid(d) then Ok(d) else Err(ValidationError("Portfolio"))
  }

  /** Only the image URL is required, and it must not be blank. */
  lemma CreateAcceptsIff(b: Portfolio)
    ensures Create(b).Ok? <==> b.imageUrl.Present? && !IsBlank(b.imageUrl.value)
  {
    TrimmedRequired(b.imageUrl);
  }

  /** What an accepted image stores: the URL trimmed, `title` and `description`
      trimmed or "" when not given, and `order` 0 when not given. */
  lemma CreateStores(b: Portfolio)
    requires Create(b).Ok?
    ensures var d := Create(b).value;
      d.imageUrl == Present(Trim(b.imageUrl.value))
      && d.title == (if b.title.Absent? then Present("") else Trimmed(b.title))
      && d.description == (if b.description.Absent? then Present("") else Trimmed(b.description))
      && d.order == (if b.order.Absent? then Present(0) else b.order)
  {
  }

  /** Creating from a stored image stores it unchanged. */
  lemma CreateIdempotent(b: Portfolio)
    requires Create(b).Ok?
    ensures Create(Create(b).value) == Create(b)
  {
    SettersIdempotent(b.imageUrl);
    SettersIdempotent(b.title);
    SettersIdempotent(b.description);
    assert Cast(Cast(b)) == Cast(b);
  }
}
