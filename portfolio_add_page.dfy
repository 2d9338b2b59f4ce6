/** app/admin/portfolio/add/page.tsx: the form that adds one gallery image per URL,
    numbering them from the order the administrator gives. */
module PortfolioAddPage {
  import opened Common
  import opened Text
  import opened Lists
  import opened Store
  import opened PortfolioModel
  import PortfolioRoute

  /** `formData`: the shared title, description and starting order. */
  datatype Form = Form(title: string, description: string, order: int)

  /** `handleAddUrl`: one more empty URL field. */
  function AddUrl(urls: seq<string>): (r: seq<string>)
    ensures |r| == |urls| + 1 && r[..|urls|] == urls && r[|urls|] == ""
  {
    urls + [""]
  }

  /** `handleRemoveUrl(index)` */
  function RemoveUrl(urls: seq<string>, i: nat): (r: seq<string>)
    requires i < |urls|
    ensures r == urls[..i] + urls[i + 1..]
  {
    RemoveAtSlices(urls, i);
    RemoveAt(urls, i)
  }

  /** `handleUrlChange(index, value)` */
  function ChangeUrl(urls: seq<string>, i: nat, value: string): (r: seq<string>)
    requires i < |urls|
    ensures |r| == |urls| && r[i] == value
    ensures forall j :: 0 <= j < |urls| && j != i ==> r[j] == urls[j]
  {
    ReplaceAt(urls, i, value)
  }

  /** `url => url.trim() !== ''`: not white space alone (`FilledIff`). */
  predicate Filled(url: string) {
    !IsBlank(url)
  }

  lemma FilledIff(url: string)
    ensures Filled(url) <==> Trim(url) != ""
  {
    TrimEmptyIffBlank(url);
  }

  /** `imageUrls.filter(url => url.trim() !== '')`: the URLs are kept as typed. */
  function ValidUrls(urls: seq<string>): seq<string> {
    Lists.Filter(urls, Filled)
  }

  /** The valid URLs are exactly the fields that are not blank, in the order of the
      fields. */
  lemma ValidUrlsIff(urls: seq<string>, extra: seq<string>)
    ensures forall k :: 0 <= k < |ValidUrls(urls)| ==> !IsBlank(ValidUrls(urls)[k]) && ValidUrls(urls)[k] in urls
    ensures forall k :: 0 <= k < |urls| && !IsBlank(urls[k]) ==> urls[k] in ValidUrls(urls)
    ensures ValidUrls(urls + extra) == ValidUrls(urls) + ValidUrls(extra)
  {
    FilterAppend(urls, extra, Filled);
  }

  /** `x || undefined` for a text of the form. */
  function TextOrMissing(s: string): (r: Field<string>)
    ensures r.Absent? <==> s == ""
    ensures r.Present? ==> r.value == s
  {
    if s == "" then Absent else Present(s)
  }

  /** The body posted for the i-th valid URL. */
  function Payload(form: Form, url: string, i: nat): Portfolio {
    Portfolio(Present(url), TextOrMissing(form.title), TextOrMissing(form.description), Present(form.order + i))
  }

  /** `handleSubmit` up to the requests: none when no URL is filled in, else one body
      per valid URL. */
  function Requests(form: Form, urls: seq<string>): (r: Option<seq<Portfolio>>)
    ensures r.None? <==> ValidUrls(urls) == []
    ensures r.Some? ==> |r.value| == |ValidUrls(urls)|
    ensures r.Some? ==> forall i :: 0 <= i < |r.value| ==>
      r.value[i].imageUrl == Present(ValidUrls(urls)[i]) && r.value[i].order == Present(form.order + i)
      && r.value[i].title == TextOrMissing(form.title) && r.value[i].description == TextOrMissing(form.description)
  {
    var valid := ValidUrls(urls);
    if valid == [] then None else Some(seq(|valid|, i requires 0 <= i < |valid| => Payload(form, valid[i], i)))
  }

  /** A body with a filled-in URL and an order is stored as one more image: its URL
      trimmed and its order as given. */
  lemma FilledStored(body: Portfolio, rows: seq<Row<Portfolio>>, stamp: Stamp)
    requires body.imageUrl.Present? && Filled(body.imageUrl.value) && body.order.Present?
    ensures PortfolioRoute.Post(rows, true, None, body, stamp).0.status == 201
    ensures PortfolioRoute.Post(rows, true, None, body, stamp).1 == rows + [Row(stamp.id, stamp.at, Create(body).value)]
    ensures Create(body).value.imageUrl == Present(Trim(body.imageUrl.value)) && Create(body).value.order == body.order
  {
    assert PortfolioRoute.Payload(body) == body;
    PortfolioRoute.PostOutcomes(rows, body, stamp);
    CreateStores(body);
  }

  /** Every body the page sends passes the route's checks: posted with a session,
      the i-th is stored as one more image, its URL trimmed and its order `order + i`. */
  lemma RequestsAccepted(form: Form, urls: seq<string>, i: nat, rows: seq<Row<Portfolio>>, stamp: Stamp)
    requires Requests(form, urls).Some? && i < |Requests(form, urls).value|
    ensures var body := Requests(form, urls).value[i];
      PortfolioRoute.Post(rows, true, None, body, stamp).0.status == 201
      && PortfolioRoute.Post(rows, true, None, body, stamp).1 == rows + [Row(stamp.id, stamp.at, Create(body).value)]
      && Create(body).value.imageUrl == Present(Trim(ValidUrls(urls)[i]))
      && Create(body).value.order == Present(form.order + i)
  {
    var url := ValidUrls(urls)[i];
    var body := Requests(form, urls).value[i];
    assert Filled(url);
    assert body.imageUrl == Present(url) && body.order == Present(form.order + i);
    FilledStored(body, rows, stamp);
  }

  /** What the page ends with; each comes with its alert. */
  datatype Outcome = NoUrls | Added(count: nat) | SomeFailed | Errored

  function Alert(o: Outcome): string {
    match o
    case NoUrls => "Please enter at least one image URL"
    case Added(n) => "Successfully added " + NatText(n) + " image(s)"
    case SomeFailed => "Some images failed to upload. Please try again."
    case Errored => "Error adding images"
  }

  /** The decimal digits of a count, as a template literal writes it. */
  function NatText(n: nat): string
    decreases n
  {
    if n < 10 then [Digit(n)] else NatText(n / 10) + [Digit(n % 10)]
  }

  function Digit(d: nat): char
    requires d < 10
  {
    "0123456789"[d]
  }

  /** `handleSubmit`. `replies` are the `success` flags of the responses, or what one
      of the requests or `r.json()` threw. */
  function Submit(form: Form, urls: seq<string>, replies: Result<seq<bool>>): (o: Outcome)
    ensures ValidUrls(urls) == [] ==> o == NoUrls
    ensures ValidUrls(urls) != [] && replies.Err? ==> o == Errored
    ensures ValidUrls(urls) != [] && replies.Ok? ==>
      ((o == Added(|ValidUrls(urls)|)) <==> forall k :: 0 <= k < |replies.value| ==> replies.value[k])
    ensures o.Added? ==> o.count == |ValidUrls(urls)| && o.count > 0
  {
    if Requests(form, urls).None? then NoUrls
    else match replies
      case Err(_) => Errored
      case Ok(flags) => if forall k :: 0 <= k < |flags| ==> flags[k] then Added(|ValidUrls(urls)|) else SomeFailed
  }

  /** The page navigates to the gallery list exactly when every request succeeded. */
  predicate Navigates(o: Outcome) {
    o.Added?
  }

  /** One failed response is enough to keep the page open. */
  lemma OneFailureStays(form: Form, urls: seq<string>, flags: seq<bool>, k: nat)
    requires k < |flags| && !flags[k]
    ensures !Navigates(Submit(form, urls, Ok(flags)))
  {
  }
}
