/**
 * The pair of validated string types that the `custom_string!` macro generates,
 * for an arbitrary validator `v` supplied by the caller.
 *
 * The macro splices one validator into every generated function; here each
 * operation that consults the validator takes it as the parameter `v`.  A value
 * of either type is meant to satisfy `Valid(v)` at all times: the checked
 * constructors establish it, the unchecked ones demand it of their caller, and
 * every conversion keeps it (in release builds, without calling the validator
 * again; the model never calls it there).
 */
module CustomString {
  import opened Wrappers
  import opened Text

  /** The caller's validator: `Ok(())` accepts the text, `Err(message)` rejects it. */
  type Validator = Bytes -> Result<(), ErrMsg>

  /** The owned type: it holds its own copy of the text (a `String`). */
  datatype Owned = Owned(value: Bytes) {

    // ----- Validation -----

    /** Returns the text itself when `v` accepts it and `v`'s own message otherwise. */
    static function Validate(v: Validator, text: Bytes): (r: Result<Bytes, ErrMsg>)
      ensures r.Ok? <==> v(text).Ok?
      ensures r.Ok? ==> r.value == text
      ensures r.Err? ==> r.error == v(text).error
    {
      match v(text)
      case Ok(_) => Ok(text)
      case Err(e) => Err(e)
    }

    /** Whether `text` passes validation. */
    static function IsValid(v: Validator, text: Bytes): (b: bool)
      ensures b <==> v(text).Ok?
    {
      Validate(v, text).Ok?
    }

    /** The type invariant: the stored text satisfies the validator. */
    predicate Valid(v: Validator) {
      IsValid(v, value)
    }

    // ----- Construction -----

    /** Stores `text` unchanged; the caller must already know it is valid. */
    static function NewUnchecked(v: Validator, text: Bytes): (o: Owned)
      requires IsValid(v, text)
      ensures o.Value() == text
      ensures o.Valid(v)
    {
      Owned(text)
    }

    /** Validates `text` and, if it is accepted, stores it. */
    static function New(v: Validator, text: Bytes): (r: Result<Owned, ErrMsg>)
      ensures r.Ok? <==> IsValid(v, text)
      ensures r.Ok? ==> r.value.Value() == text && r.value.Valid(v)
      ensures r.Err? ==> r.error == v(text).error
    {
      var checked :- Validate(v, text);
      Ok(NewUnchecked(v, checked))
    }

    // ----- Properties -----

    /** The text; it is all the value holds, so rebuilding from it gives the same value. */
    function Value(): (s: Bytes)
      ensures Owned(s) == this
    {
      value
    }

    /** The length of the text in bytes. */
    function Len(): (n: nat)
      ensures n == |Value()|
    {
      |value|
    }

    function IsEmpty(): (b: bool)
      ensures b <==> Len() == 0
      ensures b <==> Value() == []
    {
      value == []
    }

    // ----- Conversions -----

    /** A borrowed view of the same text, still valid. */
    function ToRef(v: Validator): (r: Ref)
      requires Valid(v)
      ensures r.Value() == Value()
      ensures r.Valid(v)
    {
      Ref.NewUnchecked(v, value)
    }

    /** `From<Ref> for Owned`: delegates to `Ref.ToOwned`. */
    static function FromRef(v: Validator, reference: Ref): (o: Owned)
      requires reference.Valid(v)
      ensures o.Value() == reference.Value()
      ensures o.Valid(v)
    {
      reference.ToOwned(v)
    }

    /** `From<Owned> for String`: gives up the stored text. */
    function IntoString(): (s: Bytes)
      ensures s == Value()
    {
      value
    }

    /** `AsRef<str>`: the stored text. */
    function AsRef(): (s: Bytes)
      ensures s == Value()
    {
      value
    }

    // ----- Equality -----

    /** `PartialEq<S: AsRef<str>>`: compares the text with `other.as_ref()`. */
    function Eq(other: Bytes): bool {
      Value() == other
    }

    // ----- The capability trait -----

    /** The trait's accessor: for the owned type, its borrowed view. */
    function Field(v: Validator): (r: Ref)
      requires Valid(v)
      ensures r.Value() == Value()
      ensures r.Valid(v)
    {
      ToRef(v)
    }
  }

  /** The borrowed type: a view of text owned elsewhere (a `&str`). */
  datatype Ref = Ref(value: Bytes) {

    // ----- Validation -----

    /** Delegates to the owned type's validation. */
    static function Validate(v: Validator, text: Bytes): (r: Result<Bytes, ErrMsg>)
      ensures r.Ok? <==> v(text).Ok?
      ensures r.Ok? ==> r.value == text
      ensures r.Err? ==> r.error == v(text).error
    {
      Owned.Validate(v, text)
    }

    /** Whether `text` passes validation. */
    static function IsValid(v: Validator, text: Bytes): (b: bool)
      ensures b <==> v(text).Ok?
    {
      Validate(v, text).Ok?
    }

    /** The type invariant: the viewed text satisfies the validator. */
    predicate Valid(v: Validator) {
      IsValid(v, value)
    }

    // ----- Construction -----

    /** Views `text` unchanged; the caller must already know it is valid. */
    static function NewUnchecked(v: Validator, text: Bytes): (r: Ref)
      requires IsValid(v, text)
      ensures r.Value() == text
      ensures r.Valid(v)
    {
      Ref(text)
    }

    /** Validates `text` and, if it is accepted, views it. */
    static function New(v: Validator, text: Bytes): (r: Result<Ref, ErrMsg>)
      ensures r.Ok? <==> IsValid(v, text)
      ensures r.Ok? ==> r.value.Value() == text && r.value.Valid(v)
      ensures r.Err? ==> r.error == v(text).error
    {
      var checked :- Validate(v, text);
      Ok(NewUnchecked(v, checked))
    }

    // ----- Properties -----

    /** The text; it is all the value holds, so rebuilding from it gives the same value. */
    function Value(): (s: Bytes)
      ensures Ref(s) == this
    {
      value
    }

    /** The length of the text in bytes. */
    function Len(): (n: nat)
      ensures n == |Value()|
    {
      |value|
    }

    function IsEmpty(): (b: bool)
      ensures b <==> Len() == 0
      ensures b <==> Value() == []
    {
      value == []
    }

    // ----- Conversions -----

    /** An owned copy of the same text, still valid. */
    function ToOwned(v: Validator): (o: Owned)
      requires Valid(v)
      ensures o.Value() == Value()
      ensures o.Valid(v)
    {
      Owned.NewUnchecked(v, value)
    }

    /** `From<Ref> for String`: a copy of the viewed text. */
    function IntoString(): (s: Bytes)
      ensures s == Value()
    {
      value
    }

    /** `AsRef<str>`: the viewed text. */
    function AsRef(): (s: Bytes)
      ensures s == Value()
    {
      value
    }

    // ----- Equality -----

    /** `PartialEq<S: AsRef<str>>`: compares the text with `other.as_ref()`. */
    function Eq(other: Bytes): bool {
      Value() == other
    }

    // ----- The capability trait -----

    /** The trait's accessor: for the borrowed type, the value itself. */
    function Field(): (r: Ref)
      ensures r.Value() == Value()
    {
      this
    }
  }
}
