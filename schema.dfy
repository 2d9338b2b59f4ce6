/** The Mongoose schema rules the models use: defaults, the `trim` and `lowercase`
    setters, the `required`, `enum` and `min`/`max` validators, arrays of
    sub-documents, and the `$set` of one path by an update. */
module Schema {
  import opened Common
  import opened Text
  import opened Lists

  /** `default`: applied on create when the path is missing, never over `null`. */
  function WithDefault<T>(f: Field<T>, d: T): (r: Field<T>)
    ensures f.Absent? ==> r == Present(d)
    ensures !f.Absent? ==> r == f
  {
    if f.Absent? then Present(d) else f
  }

  /** A setter runs on a present value only. */
  function MapField<T, U>(f: Field<T>, g: T -> U): (r: Field<U>)
    ensures r.Absent? <==> f.Absent?
    ensures r.Null? <==> f.Null?
    ensures f.Present? ==> r == Present(g(f.value))
  {
    match f
    case Absent => Absent
    case Null => Null
    case Present(v) => Present(g(v))
  }

  /** `{ trim: true }` */
  function Trimmed(f: Field<string>): Field<string> {
    if f.Present? then Present(Trim(f.value)) else f
  }

  /** `{ trim: true, lowercase: true }` */
  function TrimmedLower(f: Field<string>): Field<string> {
    if f.Present? then Present(ToLower(Trim(f.value))) else f
  }

  /** `required` on a String path: fails for undefined, null and "". */
  predicate RequiredText(f: Field<string>) {
    f.Present? && f.value != ""
  }

  /** `required` on a Number path: fails for undefined and null. */
  predicate RequiredValue<T>(f: Field<T>) {
    f.Present?
  }

  /** `enum` on a String path: undefined passes; null and any other string fail. */
  predicate InEnum(f: Field<string>, values: seq<string>) {
    f.Absent? || (f.Present? && f.value in values)
  }

  /** `min` / `max` on a Number path: only a present number is compared. */
  predicate InRange(f: Field<int>, lo: int, hi: int) {
    f.Present? ==> lo <= f.value <= hi
  }

  /** `min` on a Number path holding a fraction. */
  predicate AtLeast(f: Field<real>, lo: real) {
    f.Present? ==> lo <= f.value
  }

  /** An array of sub-documents: every element is cast by the sub-schema. */
  function CastEach<T>(f: Field<seq<T>>, cast: T -> T): (r: Field<seq<T>>)
    ensures r.Absent? <==> f.Absent?
    ensures r.Null? <==> f.Null?
    ensures f.Present? ==> |r.value| == |f.value| && forall i :: 0 <= i < |f.value| ==> r.value[i] == cast(f.value[i])
  {
    MapField(f, (s: seq<T>) => Map(s, cast))
  }

  /** Every element of an array path satisfies the sub-schema's validators. */
  predicate Each<T>(f: Field<seq<T>>, valid: T -> bool) {
    f.Present? ==> forall i :: 0 <= i < |f.value| ==> valid(f.value[i])
  }

  /** `$set` of one path, and `if (x !== undefined) doc.x = x`: a missing property keeps
      the stored value; anything else, `null` included, replaces it. */
  function Overwrite<T>(stored: Field<T>, given: Field<T>): (r: Field<T>)
    ensures given.Absent? ==> r == stored
    ensures !given.Absent? ==> r == given
  {
    if given.Absent? then stored else given
  }

  /** Update validators run on the paths an update sets, and only on those. */
  predicate GivenOk<T>(given: Field<T>, valid: Field<T> -> bool) {
    given.Absent? || valid(given)
  }

  /** The error a failed validation throws; its text is reduced to the model name. */
  function ValidationError(model: string): Thrown {
    JsError(model + " validation failed")
  }

  /** A trimmed required path passes exactly when the given text is not empty once
      trimmed. */
  lemma TrimmedPresent(f: Field<string>)
    ensures RequiredText(Trimmed(f)) <==> f.Present? && Trim(f.value) != ""
    ensures RequiredText(TrimmedLower(f)) <==> f.Present? && Trim(f.value) != ""
  {
  }

  /** A trimmed required path passes exactly when the given text is not blank. */
  lemma TrimmedRequired(f: Field<string>)
    ensures RequiredText(Trimmed(f)) <==> f.Present? && !IsBlank(f.value)
    ensures RequiredText(TrimmedLower(f)) <==> f.Present? && !IsBlank(f.value)
  {
    if f.Present? {
      TrimEmptyIffBlank(f.value);
    }
  }

  /** Casting a value the setters produced changes nothing, so a stored document
      survives being cast again. */
  lemma SettersIdempotent(f: Field<string>)
    ensures Trimmed(Trimmed(f)) == Trimmed(f)
    ensures TrimmedLower(TrimmedLower(f)) == TrimmedLower(f)
  {
    if f.Present? {
      var s := f.value;
      TrimIdempotent(s);
      TrimLowerCommute(Trim(s));
      TrimIdempotent(ToLower(Trim(s)));
      ToLowerIsLower(Trim(s));
      assert ToLower(Trim(ToLower(Trim(s)))) == ToLower(ToLower(Trim(Trim(s))));
    }
  }

  /** What the setters leave: no surrounding white space, and no upper-case letter
      for a lower-cased path. */
  lemma SettersNormalise(f: Field<string>)
    ensures Trimmed(f).Present? ==> Trim(Trimmed(f).value) == Trimmed(f).value
    ensures TrimmedLower(f).Present? ==>
      Trim(TrimmedLower(f).value) == TrimmedLower(f).value && IsLower(TrimmedLower(f).value)
  {
    SettersIdempotent(f);
    if f.Present? {
      TrimIdempotent(f.value);
      ToLowerIsLower(Trim(f.value));
      TrimLowerCommute(Trim(f.value));
    }
  }
}
