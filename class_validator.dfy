/**
 * The request-body values a DTO property can receive and the meaning of the
 * class-validator decorators used on this path. A property is a `Field`:
 * `None` when the key is absent (`undefined`), otherwise the JSON value it
 * carries after class-transformer ran.
 */
module ClassValidator {
  import opened Wrappers
  import opened Domain

  /** A JavaScript number, as far as the validators distinguish them. */
  datatype Num =
    | Int(i: int)   // an integral value
    | Fraction      // a finite non-integral value, or an infinity
    | NaN

  /** A JSON value: string, boolean, number, null, or an object/array. */
  datatype Raw = RString(s: string) | RBool(b: bool) | RNumber(n: Num) | RNull | RComposite

  type Field = Option<Raw>

  /** `null` or `undefined`: what `@IsOptional()` lets through without validating. */
  predicate IsNullish(v: Field) {
    v.None? || v.value.RNull?
  }

  /** JavaScript truthiness (`!!v`). */
  predicate JsTruthy(v: Field) {
    match v
    case None => false
    case Some(RString(s)) => s != ""
    case Some(RBool(b)) => b
    case Some(RNumber(Int(i))) => i != 0
    case Some(RNumber(Fraction)) => true
    case Some(RNumber(NaN)) => false
    case Some(RNull) => false
    case Some(RComposite) => true
  }

  /** `@IsNotEmpty()`: not `''`, not `null`, not `undefined`. */
  predicate IsNotEmpty(v: Field) {
    !IsNullish(v) && v != Some(RString(""))
  }

  /** `@IsString()`. */
  predicate IsString(v: Field) {
    v.Some? && v.value.RString?
  }

  /** `@IsBoolean()`. */
  predicate IsBoolean(v: Field) {
    v.Some? && v.value.RBool?
  }

  /** `@IsInt()` together with `@Min(lo)` and, when given, `@Max(hi)`. */
  predicate IsIntInRange(v: Field, lo: int, hi: Option<int>) {
    v.Some? && v.value.RNumber? && v.value.n.Int? &&
    lo <= v.value.n.i && (hi.Some? ==> v.value.n.i <= hi.value)
  }

  /** `@IsEnum(E)` for a string enum whose values are `values`. */
  predicate IsEnumOf(v: Field, values: set<string>) {
    v.Some? && v.value.RString? && v.value.s in values
  }

  /** Variation selectors U+FE0E and U+FE0F, which validator.js's `isLength` does not count. */
  predicate IsVariationSelector(c: char) {
    c == '\U{FE0E}' || c == '\U{FE0F}'
  }

  /**
   * The length `@MinLength`/`@MaxLength` compare (validator.js `isLength`):
   * code points, a surrogate pair counting once, variation selectors not at all.
   */
  function CountedLength(s: string): (n: nat)
    ensures n <= |s|
    ensures (forall i :: 0 <= i < |s| ==> !IsVariationSelector(s[i])) ==> n == |s|
  {
    if s == [] then 0 else (if IsVariationSelector(s[0]) then 0 else 1) + CountedLength(s[1..])
  }

  /** `@IsString() @MinLength(lo) @MaxLength(hi)`. */
  predicate IsStringOfLength(v: Field, lo: nat, hi: nat) {
    IsString(v) && lo <= CountedLength(v.value.s) <= hi
  }

  /** `@IsEmail()`: a string accepted by validator.js's `isEmail`, here the parameter `isEmail`. */
  predicate IsEmail(v: Field, isEmail: string -> bool) {
    IsString(v) && isEmail(v.value.s)
  }

  /** The exception the global ValidationPipe throws when a constraint fails. */
  function ValidationFailed(): (e: Error)
    ensures StatusOf(e) == BAD_REQUEST
  {
    BadRequest("Bad Request")
  }
}
