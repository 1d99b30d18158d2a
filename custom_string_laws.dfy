/**
 * Properties that hold of the generated pair for every validator: the two
 * types validate alike, conversions are mutually inverse and keep validity,
 * and equality is equality of text.
 */
module CustomStringLaws {
  import opened Wrappers
  import opened Text
  import opened CustomString

  // ----- Validation -----

  /** The borrowed type's validation has exactly the owned type's outcome. */
  lemma ValidateSameForBoth(v: Validator, text: Bytes)
    ensures Ref.Validate(v, text) == Owned.Validate(v, text)
  {
  }

  /** `is_valid` is `validate(..).is_ok()`, so the two never disagree, on either type. */
  lemma IsValidAgreesWithValidate(v: Validator, text: Bytes)
    ensures Owned.IsValid(v, text) == Owned.Validate(v, text).Ok?
    ensures Ref.IsValid(v, text) == Ref.Validate(v, text).Ok?
    ensures Owned.IsValid(v, text) == Ref.IsValid(v, text)
  {
  }

  // ----- Construction -----

  /** Checked construction agrees on both types: same success, same text, same error. */
  lemma NewSameForBoth(v: Validator, text: Bytes)
    ensures Owned.New(v, text).Ok? == Ref.New(v, text).Ok?
    ensures Owned.New(v, text).Ok? ==> Owned.New(v, text).value.Value() == Ref.New(v, text).value.Value()
    ensures Owned.New(v, text).Err? ==> Owned.New(v, text).error == Ref.New(v, text).error
  {
  }

  /** On success, checked construction gives what the unchecked one would. */
  lemma NewIsCheckedNewUnchecked(v: Validator, text: Bytes)
    requires Owned.IsValid(v, text)
    ensures Owned.New(v, text) == Ok(Owned.NewUnchecked(v, text))
    ensures Ref.New(v, text) == Ok(Ref.NewUnchecked(v, text))
  {
  }

  // ----- Properties -----

  /** Length and emptiness survive both conversions. */
  lemma LenSameAcrossConversions(v: Validator, o: Owned, r: Ref)
    requires o.Valid(v) && r.Valid(v)
    ensures o.ToRef(v).Len() == o.Len() && o.ToRef(v).IsEmpty() == o.IsEmpty()
    ensures r.ToOwned(v).Len() == r.Len() && r.ToOwned(v).IsEmpty() == r.IsEmpty()
  {
  }

  // ----- Conversions -----

  /** Owned to borrowed and back gives the same owned value, byte for byte. */
  lemma OwnedRoundTrip(v: Validator, o: Owned)
    requires o.Valid(v)
    ensures o.ToRef(v).ToOwned(v) == o
    ensures Owned.FromRef(v, o.ToRef(v)) == o
  {
  }

  /** Borrowed to owned and back gives the same borrowed value. */
  lemma RefRoundTrip(v: Validator, r: Ref)
    requires r.Valid(v)
    ensures r.ToOwned(v).ToRef(v) == r
  {
  }

  /** `From<Ref> for Owned` is `to_owned`. */
  lemma FromRefIsToOwned(v: Validator, r: Ref)
    requires r.Valid(v)
    ensures Owned.FromRef(v, r) == r.ToOwned(v)
  {
  }

  // ----- Equality -----

  /** An owned value built from `t1` equals the string-like `t2` exactly when the texts are equal. */
  lemma OwnedNewEqIffSameText(v: Validator, t1: Bytes, t2: Bytes)
    requires Owned.IsValid(v, t1)
    ensures Owned.New(v, t1).value.Eq(t2) <==> t1 == t2
  {
  }

  /** A borrowed value built from `t1` equals the string-like `t2` exactly when the texts are equal. */
  lemma RefNewEqIffSameText(v: Validator, t1: Bytes, t2: Bytes)
    requires Ref.IsValid(v, t1)
    ensures Ref.New(v, t1).value.Eq(t2) <==> t1 == t2
  {
  }

  /** Comparing two owned values (through `as_ref`) is equality of the values themselves. */
  lemma OwnedEqIsValueEquality(o1: Owned, o2: Owned)
    ensures o1.Eq(o2.AsRef()) <==> o1 == o2
  {
  }

  /** Comparing two borrowed values (through `as_ref`) is equality of the values themselves. */
  lemma RefEqIsValueEquality(r1: Ref, r2: Ref)
    ensures r1.Eq(r2.AsRef()) <==> r1 == r2
  {
  }

  /** Equality is reflexive, symmetric and transitive. */
  lemma EqIsEquivalence(a: Owned, b: Owned, c: Owned)
    ensures a.Eq(a.AsRef())
    ensures a.Eq(b.AsRef()) <==> b.Eq(a.AsRef())
    ensures a.Eq(b.AsRef()) && b.Eq(c.AsRef()) ==> a.Eq(c.AsRef())
  {
  }

  /** An owned value and its borrowed view compare alike with any text and with each other. */
  lemma EqSameAcrossRepresentations(v: Validator, o: Owned, t: Bytes)
    requires o.Valid(v)
    ensures o.Eq(t) <==> o.ToRef(v).Eq(t)
    ensures o.Eq(o.ToRef(v).AsRef()) && o.ToRef(v).Eq(o.AsRef())
  {
  }

  // ----- The capability trait -----

  /**
   * The accessor is `to_ref()` on the owned type and the identity on the
   * borrowed type, so an owned value and its view give the same borrowed value.
   */
  lemma FieldSameForBoth(v: Validator, o: Owned, r: Ref)
    requires o.Valid(v)
    ensures o.Field(v) == o.ToRef(v)
    ensures o.Field(v) == o.ToRef(v).Field()
    ensures r.Field() == r
    ensures o.Field(v).Value() == o.Value() && r.Field().Value() == r.Value()
  {
  }
}
