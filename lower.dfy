/**
 * The example instantiation from the repository's tests: `Lower` / `LowerRef`,
 * whose validator accepts a text exactly when every byte is an ASCII lowercase
 * letter, with the capability trait `WithLower` and its accessor `lower`.
 */
module LowerString {
  import opened Wrappers
  import opened Text
  import opened CustomString

  /** `u8::is_ascii_lowercase`: the bytes `b'a'..=b'z'`. */
  predicate IsAsciiLowercase(c: uint8) {
    0x61 <= c <= 0x7A
  }

  /** `bytes.iter().all(is_ascii_lowercase)`, stopping at the first byte that fails. */
  function AllAsciiLowercase(s: Bytes): (r: bool)
    ensures r <==> forall i :: 0 <= i < |s| ==> IsAsciiLowercase(s[i])
  {
    s == [] || (IsAsciiLowercase(s[0]) && AllAsciiLowercase(s[1..]))
  }

  /** The validator passed to the macro. */
  function LowercaseValidator(s: Bytes): (r: Result<(), ErrMsg>)
    ensures r.Ok? <==> forall i :: 0 <= i < |s| ==> IsAsciiLowercase(s[i])
    ensures r.Err? ==> r.error == "not lowercase"
  {
    if !AllAsciiLowercase(s) then Err("not lowercase") else Ok(())
  }

  /** The generated owned type: an owned text that is all lowercase. */
  type Lower = o: Owned | o.Valid(LowercaseValidator) witness Owned([])

  /** The generated borrowed type. */
  type LowerRef = r: Ref | r.Valid(LowercaseValidator) witness Ref([])

  /** `WithLower::lower` on either representation. */
  function LowerOfOwned(o: Lower): (r: LowerRef)
    ensures r.Value() == o.Value()
  {
    o.Field(LowercaseValidator)
  }

  function LowerOfRef(r: LowerRef): (l: LowerRef)
    ensures l.Value() == r.Value()
  {
    r.Field()
  }

  const ONE: Bytes := AsciiBytes("one")
  const TWO: Bytes := AsciiBytes("two")
  const UPPER_ONE: Bytes := AsciiBytes("ONE")

  /** Every byte of a `Lower` or `LowerRef` is a lowercase letter. */
  lemma LowerValuesAreLowercase(o: Lower, r: LowerRef)
    ensures forall i :: 0 <= i < o.Len() ==> IsAsciiLowercase(o.Value()[i])
    ensures forall i :: 0 <= i < r.Len() ==> IsAsciiLowercase(r.Value()[i])
  {
  }

  /** The `validation` test. */
  lemma ValidationScenario()
    ensures Owned.IsValid(LowercaseValidator, ONE)
    ensures !Owned.IsValid(LowercaseValidator, UPPER_ONE)
    ensures Owned.Validate(LowercaseValidator, ONE).Ok?
    ensures Owned.Validate(LowercaseValidator, UPPER_ONE) == Err("not lowercase")
  {
  }

  /**
   * The `equals` test: both unwraps succeed with the given texts, and the
   * comparisons come out as asserted; a text with capitals is refused.
   */
  lemma EqualsScenario()
    ensures Owned.New(LowercaseValidator, ONE).Ok? && Owned.New(LowercaseValidator, TWO).Ok?
    ensures Owned.New(LowercaseValidator, ONE).value.Value() == ONE
    ensures Owned.New(LowercaseValidator, UPPER_ONE) == Err("not lowercase")
    ensures var one: Lower := Owned.New(LowercaseValidator, ONE).value;
            var two: Lower := Owned.New(LowercaseValidator, TWO).value;
            && one.Eq(ONE)
            && one.Eq(one.AsRef())
            && !one.Eq(TWO)
            && !one.Eq(two.AsRef())
  {
  }

  /** The accessor gives the same text on a `Lower` and on its borrowed view. */
  lemma CapabilityScenario(o: Lower)
    ensures LowerOfOwned(o) == LowerOfRef(o.ToRef(LowercaseValidator))
    ensures LowerOfOwned(o).Value() == o.Value()
  {
  }
}
