/** app/admin/services/add/page.tsx: the form that adds a service, with its image
    URLs typed one per line. */
module ServicesAddPage {
  import opened Common
  import opened Text
  import opened Lists
  import opened ServiceModel
  import opened Store
  import Collection
  import ServicesRoute

  /** `formData`: every field as typed. */
  datatype Form = Form(name: string, description: string, price: string, images: string, details: string)

  /** `.map((url) => url.trim()).filter((url) => url)`: each line trimmed, and the
      empty results dropped. */
  function Clean(lines: seq<string>): (r: seq<string>)
    ensures |r| <= |lines|
  {
    if lines == [] then [] else Kept(lines[0]) + Clean(lines[1..])
  }

  /** One line of the clean-up: the line trimmed, or nothing when that is empty. */
  function Kept(line: string): (r: seq<string>)
    ensures r == [] <==> Trim(line) == ""
    ensures r != [] ==> r == [Trim(line)]
  {
    if Trim(line) != "" then [Trim(line)] else []
  }

  /** `formData.images.split('\n').map((url) => url.trim()).filter((url) => url)` */
  function ImageList(text: string): seq<string> {
    Clean(Split(text, '\n'))
  }

  /** The lines, each trimmed, as a set. */
  function TrimmedLines(lines: seq<string>): set<string> {
    if lines == [] then {} else {Trim(lines[0])} + TrimmedLines(lines[1..])
  }

  /** A trimmed line has no surrounding white space left. */
  lemma {:induction false} TrimmedLinesNormal(lines: seq<string>)
    ensures forall u :: u in TrimmedLines(lines) ==> Trim(u) == u
    decreases |lines|
  {
    if lines != [] {
      TrimmedLinesNormal(lines[1..]);
      TrimIdempotent(lines[0]);
    }
  }

  /** Every URL is one of the lines, trimmed, and is not empty. */
  lemma {:induction false} CleanFrom(lines: seq<string>)
    ensures forall k :: 0 <= k < |Clean(lines)| ==> Clean(lines)[k] != "" && Clean(lines)[k] in TrimmedLines(lines)
    decreases |lines|
  {
    if lines != [] {
      CleanFrom(lines[1..]);
      var head := if Trim(lines[0]) != "" then [Trim(lines[0])] else [];
      assert Clean(lines) == head + Clean(lines[1..]);
    }
  }

  /** Every URL is not empty, has no surrounding white space, and is a line of the
      text, trimmed. */
  lemma CleanShape(lines: seq<string>)
    ensures forall k :: 0 <= k < |Clean(lines)| ==>
      Clean(lines)[k] != "" && Trim(Clean(lines)[k]) == Clean(lines)[k] && Clean(lines)[k] in TrimmedLines(lines)
  {
    CleanFrom(lines);
    TrimmedLinesNormal(lines);
  }

  /** Every line that is not blank gives a URL. */
  lemma {:induction false} CleanKeeps(lines: seq<string>)
    ensures forall j :: 0 <= j < |lines| && !IsBlank(lines[j]) ==> Trim(lines[j]) in Clean(lines)
    decreases |lines|
  {
    if lines != [] {
      CleanKeeps(lines[1..]);
      var head := if Trim(lines[0]) != "" then [Trim(lines[0])] else [];
      assert Clean(lines) == head + Clean(lines[1..]);
      forall j | 0 <= j < |lines| && !IsBlank(lines[j])
        ensures Trim(lines[j]) in Clean(lines)
      {
        if j == 0 {
          TrimEmptyIffBlank(lines[0]);
        } else {
          assert lines[1..][j - 1] == lines[j];
        }
      }
    }
  }

  /** The image list of the text: at most one URL per line, each a line trimmed and
      not empty, and one for every line that is not blank. */
  lemma ImageListIff(text: string)
    ensures |ImageList(text)| <= Occurrences(text, '\n') + 1
    ensures forall k :: 0 <= k < |ImageList(text)| ==>
      ImageList(text)[k] != "" && Trim(ImageList(text)[k]) == ImageList(text)[k]
      && ImageList(text)[k] in TrimmedLines(Split(text, '\n'))
    ensures forall j :: 0 <= j < |Split(text, '\n')| && !IsBlank(Split(text, '\n')[j]) ==>
      Trim(Split(text, '\n')[j]) in ImageList(text)
  {
    SplitJoin(text, '\n');
    CleanShape(Split(text, '\n'));
    CleanKeeps(Split(text, '\n'));
  }

  lemma {:induction false} CleanAppend(x: seq<string>, y: seq<string>)
    ensures Clean(x + y) == Clean(x) + Clean(y)
    decreases |x|
  {
    if x == [] {
      assert x + y == y;
    } else {
      assert (x + y)[0] == x[0];
      assert (x + y)[1..] == x[1..] + y;
      CleanAppend(x[1..], y);
    }
  }

  /** `split` distributes over a separator. */
  lemma {:induction false} SplitAround(a: string, b: string, sep: char)
    ensures Split(a + [sep] + b, sep) == Split(a, sep) + Split(b, sep)
    decreases |a|
  {
    if a == [] {
      assert a + [sep] + b == [sep] + b;
      assert ([sep] + b)[1..] == b;
    } else {
      var s := a + [sep] + b;
      assert s[0] == a[0];
      assert s[1..] == a[1..] + [sep] + b;
      SplitAround(a[1..], b, sep);
    }
  }

  /** The URLs keep the order of the lines: the list for two blocks of lines is the
      list of the first block followed by that of the second. */
  lemma ImageListKeepsOrder(a: string, b: string)
    ensures ImageList(a + "\n" + b) == ImageList(a) + ImageList(b)
  {
    SplitAround(a, b, '\n');
    CleanAppend(Split(a, '\n'), Split(b, '\n'));
  }

  /** The body posted: the form's texts, `parseFloat(price)` and the image list.
      `price` is the parsed number, or `None` when it is NaN, which
      `JSON.stringify` writes as `null`. */
  function Payload(form: Form, price: Option<real>): (b: Service)
    ensures b.name == Present(form.name) && b.description == Present(form.description)
    ensures b.details == Present(form.details)
    ensures b.images == Present(ImageList(form.images))
    ensures price.None? <==> b.price.Null?
    ensures price.Some? ==> b.price == Present(price.value)
  {
    Service(Present(form.name), Present(form.description),
            if price.Some? then Present(price.value) else Null,
            Present(ImageList(form.images)), Present(form.details))
  }

  /** The service is stored exactly when the name is not blank, the description and
      details are filled in and the price is a number no smaller than 0; a price that
      is not a number is refused. */
  lemma PayloadAcceptedIff(form: Form, price: Option<real>)
    ensures Create(Payload(form, price)).Ok? <==>
      Trim(form.name) != "" && form.description != "" && form.details != ""
      && price.Some? && price.value >= 0.0
  {
    CreateAcceptsIff(Payload(form, price));
  }

  /** Where `handleSubmit` ends, given `response.ok` or what `fetch` threw. */
  datatype Outcome = Navigate(path: string) | Stay(alert: string)

  function Submit(reply: Result<bool>): (o: Outcome)
    ensures o.Navigate? <==> reply == Ok(true)
    ensures o.Navigate? ==> o.path == "/admin/services"
    ensures reply == Ok(false) ==> o == Stay("Failed to create service")
    ensures reply.Err? ==> o == Stay("An error occurred")
  {
    match reply
    case Ok(true) => Navigate("/admin/services")
    case Ok(false) => Stay("Failed to create service")
    case Err(_) => Stay("An error occurred")
  }

  /** Submitting against the route: `response.ok` holds, and the page moves on to the
      list, exactly when the POST stores the service, which is exactly when there is a
      session, the store does not throw and `Service.create` accepts the payload; the
      one new document is then the created service. Otherwise nothing is stored. */
  lemma SubmitNavigatesIffStored(rows: seq<Row<Service>>, session: bool, fault: Option<Thrown>,
                                 form: Form, price: Option<real>, stamp: Stamp)
    ensures var (o, after) := Collection.Post(rows, session, fault, Payload(form, price), Create, stamp);
      var status := Collection.Created(o, "Unauthorized", 400, ServicesRoute.ErrorText).status;
      var shown := Submit(Ok(200 <= status < 300));
      (shown.Navigate? <==> session && fault.None? && Create(Payload(form, price)).Ok?)
      && (shown.Navigate? ==> after == rows + [Row(stamp.id, stamp.at, Create(Payload(form, price)).value)])
      && (!shown.Navigate? ==> after == rows)
  {
    Collection.PostAppendsOne(rows, session, fault, Payload(form, price), Create, stamp);
  }
}
