# custom-string: validated string pairs, modelled in Dafny

The `custom_string!` macro generates two types around a validator that the
caller supplies. The owned type holds its own `String`. The borrowed type holds
a `&str`. Every value of either type is meant to satisfy the validator. Checked
construction establishes that. Unchecked construction makes it the caller's
obligation. In release builds, conversions between the two types keep it without validating again.

This model writes the macro once, generically:

- `Text` models text as the UTF-8 bytes of a `str` (`seq<uint8>`), so `Len` is a byte length, as documented.
- `Wrappers` holds `Result`. Its `:-` operator models Rust's `?`.
- `CustomString` holds the generated pair: `Owned` and `Ref`, both immutable datatypes. Every operation that consults the validator takes it as a parameter `v: Validator` (`Bytes -> Result<(), ErrMsg>`). This stands in for the macro splicing `$validate_fn` into each function. The type invariant is `Valid(v)`: the stored text passes `v`. `NewUnchecked`, `ToRef`, `ToOwned`, `FromRef` and `Owned.Field` require it. For `NewUnchecked` this models the `debug_assert!`. For the conversions, it is the invariant every value of the Rust type already carries.
- `CustomStringLaws` holds the lemmas that hold for every validator.
- `LowerString` is the test instantiation (`Lower`, `LowerRef`, `WithLower::lower`) with the lowercase validator. It adds subset types that carry the invariant, and lemmas for the `equals` and `validation` tests.

The capability trait `$with_trait_name` has one accessor, `$field_name`. It is modelled by its two implementations, `Owned.Field` and `Ref.Field`.

## Model

| member | source | states |
|---|---|---|
| CustomString.Owned.Validate | src/lib.rs:39-48 | Succeeds exactly when the validator accepts. On success it returns the input text unchanged. On failure it returns the validator's own message. |
| CustomString.Owned.IsValid | src/lib.rs:50-53 | True exactly when the validator accepts the text. |
| CustomString.Ref.Validate | src/lib.rs:59-65 | Same outcome as the owned type's validation, which it delegates to. |
| CustomString.Ref.IsValid | src/lib.rs:67-70 | True exactly when the validator accepts the text. |
| CustomString.Owned.NewUnchecked | src/lib.rs:76-89 | Requires the text to be valid (the debug assertion). Stores the text unchanged, and the result satisfies the invariant. |
| CustomString.Owned.New | src/lib.rs:91-97 | Succeeds iff the text is valid. On success, `value()` is exactly the input and the invariant holds. On failure, the error is the validator's message. |
| CustomString.Ref.NewUnchecked | src/lib.rs:103-111 | Requires the text to be valid. Views the text unchanged, and the result satisfies the invariant. |
| CustomString.Ref.New | src/lib.rs:113-116 | Succeeds iff the text is valid. On success, `value()` is exactly the input and the invariant holds. On failure, the error is the validator's message. |
| CustomString.Owned.Value | src/lib.rs:122-125 | `value()` returns the stored text. That text is all the value holds: rebuilding from it gives the same value. |
| CustomString.Ref.Value | src/lib.rs:141-144 | `value()` returns the viewed text. That text is all the value holds: rebuilding from it gives the same value. |
| CustomString.Owned.Len | src/lib.rs:127-130 | The byte length of `value()`. |
| CustomString.Owned.IsEmpty | src/lib.rs:132-135 | True iff `len()` is 0, that is, iff the text is empty. |
| CustomString.Ref.Len | src/lib.rs:146-149 | The byte length of `value()`. |
| CustomString.Ref.IsEmpty | src/lib.rs:151-154 | True iff `len()` is 0, that is, iff the text is empty. |
| CustomString.Owned.ToRef | src/lib.rs:160-163 | A borrowed value with the same text, which is still valid. |
| CustomString.Ref.ToOwned | src/lib.rs:169-172 | An owned value with the same text, which is still valid. |
| CustomString.Owned.FromRef | src/lib.rs:175-179 | `From<Ref> for Owned` gives an owned value with the same text that is still valid. |
| CustomString.Owned.IntoString | src/lib.rs:181-185 | `From<Owned> for String` yields exactly `value()`. |
| CustomString.Ref.IntoString | src/lib.rs:187-191 | `From<Ref> for String` yields exactly `value()`. |
| CustomString.Owned.AsRef | src/lib.rs:193-197 | `as_ref()` yields exactly `value()`. |
| CustomString.Ref.AsRef | src/lib.rs:199-203 | `as_ref()` yields exactly `value()`. |
| CustomString.Owned.Field | src/lib.rs:241-245 | The owned type's trait accessor gives a valid borrowed value with the same text. |
| CustomString.Ref.Field | src/lib.rs:235-239 | The borrowed type's trait accessor gives a borrowed value with the same text. |
| CustomStringLaws.ValidateSameForBoth | src/lib.rs:63-65 | Both types' `validate` give identical results for every text and validator. |
| CustomStringLaws.IsValidAgreesWithValidate | src/lib.rs:51-53 | `is_valid == validate(..).is_ok()` on both types, and the two types' `is_valid` agree. |
| CustomStringLaws.NewSameForBoth | src/lib.rs:92-116 | Checked `new` succeeds on one type iff it does on the other, with the same text or the same error. |
| CustomStringLaws.NewIsCheckedNewUnchecked | src/lib.rs:96 | For a valid text, `new` gives exactly what `new_unchecked` gives, on both types. |
| CustomStringLaws.LenSameAcrossConversions | src/lib.rs:128-172 | `len()` and `is_empty()` are preserved by `to_ref` and `to_owned`. |
| CustomStringLaws.OwnedRoundTrip | src/lib.rs:161-179 | For any valid owned `o`, `o.to_ref().to_owned()` and `Owned::from(o.to_ref())` equal `o`. |
| CustomStringLaws.RefRoundTrip | src/lib.rs:161-172 | For any valid borrowed `r`, `r.to_owned().to_ref()` equals `r`. |
| CustomStringLaws.FromRefIsToOwned | src/lib.rs:175-179 | `From<Ref> for Owned` is `to_owned`. |
| CustomStringLaws.OwnedNewEqIffSameText | src/lib.rs:24-28 | The owned type's `eq` (`CustomString.Owned.Eq`): a value built from `t1` equals a string-like `t2` iff `t1 == t2` byte for byte. |
| CustomStringLaws.RefNewEqIffSameText | src/lib.rs:30-34 | The borrowed type's `eq` (`CustomString.Ref.Eq`): a value built from `t1` equals a string-like `t2` iff `t1 == t2` byte for byte. |
| CustomStringLaws.OwnedEqIsValueEquality | src/lib.rs:24-28 | Comparing two owned values through `as_ref` is equality of the values. |
| CustomStringLaws.RefEqIsValueEquality | src/lib.rs:30-34 | Comparing two borrowed values through `as_ref` is equality of the values. |
| CustomStringLaws.EqIsEquivalence | src/lib.rs:24-28 | The owned type's equality is reflexive, symmetric and transitive. |
| CustomStringLaws.EqSameAcrossRepresentations | src/lib.rs:24-34 | An owned value and its borrowed view compare alike with any text, and compare equal to each other. |
| CustomStringLaws.FieldSameForBoth | src/lib.rs:235-245 | The accessor is `to_ref()` on the owned type and the identity on the borrowed type, so both give the same text. |
| LowerString.AllAsciiLowercase | src/lib.rs:253-255 | True iff every byte is in `b'a'..=b'z'`. |
| LowerString.LowercaseValidator | src/lib.rs:252-260 | Accepts iff every byte is an ASCII lowercase letter. Otherwise it rejects with "not lowercase". |
| LowerString.LowerOfOwned | src/lib.rs:241-245 | `WithLower::lower` on a `Lower` gives a `LowerRef` with the same text. |
| LowerString.LowerOfRef | src/lib.rs:235-239 | `WithLower::lower` on a `LowerRef` gives a `LowerRef` with the same text. |
| LowerString.LowerValuesAreLowercase | src/lib.rs:252-260 | Every byte of every `Lower` and `LowerRef` value is a lowercase letter. |
| LowerString.ValidationScenario | src/lib.rs:273-280 | "one" is valid. "ONE" is not, and validating it gives `Err("not lowercase")`. |
| LowerString.EqualsScenario | src/lib.rs:262-271 | `new("one")` and `new("two")` succeed, as `Lower` values, and `new("one")` holds exactly "one". `new("ONE")` fails with "not lowercase". `one == "one"`, `one == one`, `one != "two"` and `one != two`. |
| LowerString.CapabilityScenario | src/lib.rs:235-245 | On a `Lower` and on its `to_ref()`, the accessor gives the same borrowed value, whose text is the `Lower`'s. |

## Left out

- The macro mechanism itself (`macro_rules!`, identifier splicing, the generated doc attributes). It is replaced by the validator parameter `v`.
- Lifetimes and borrow checking on the borrowed type. The model has no aliasing or scopes, so zero-copy versus copying is not observable.
- The debug-versus-release behaviour of `debug_assert!` and `unsafe`. The unchecked constructors require validity instead. In debug builds, the conversions and `new` run the validator again through `new_unchecked`'s `debug_assert!`. The model never does.
- The derived `Clone`, `Copy`, `Ord`, `PartialOrd`, `Eq`, `Hash` and `Debug` impls, and the `Display` impls. These delegate mechanically to the standard library.
- `Borrow<str>`. It returns the same text as `AsRef<str>`, which is modelled.
- The generic bounds `S: AsRef<str>` and `S: Into<String>`. Each argument is modelled as the bytes it yields.
- Well-formedness of UTF-8. Texts are arbitrary byte sequences, so every property holds in particular for valid UTF-8.
- The `usize` bound on `len()`. `Len` returns an unbounded `nat`.
- Validators are pure, total Dafny functions. A Rust closure with side effects is not modelled.
