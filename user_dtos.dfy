/**
 * CreateUserDto and UpdateUserDto: the constraints the global ValidationPipe
 * (`whitelist: true, transform: true`) checks on a user body, and the typed
 * DTO the service receives when they hold.
 */
module UserDtos {
  import opened Wrappers
  import opened Domain
  import opened ClassValidator

  // ---------------------------------------------------------------------------
  // The password pattern  ^(?=.*[A-Z])(?=.*[a-z])(?=.*\d)(?=.*[\W_]).+$
  // ---------------------------------------------------------------------------

  /** The characters JavaScript's `.` does not match (no `s` flag): the line terminators. */
  predicate LineTerminator(c: char) {
    c == '\n' || c == '\r' || c == '\U{2028}' || c == '\U{2029}'
  }

  /** The four character classes the lookaheads ask for. */
  datatype CharClass = UpperClass | LowerClass | DigitClass | SpecialClass

  predicate InClass(c: char, k: CharClass) {
    match k
    case UpperClass => 'A' <= c <= 'Z'
    case LowerClass => 'a' <= c <= 'z'
    case DigitClass => '0' <= c <= '9'
    case SpecialClass => !('A' <= c <= 'Z' || 'a' <= c <= 'z' || '0' <= c <= '9')  // [\W_]
  }

  /** `.` matches every one of the first `i` characters. */
  predicate DotsUpTo(s: string, i: int)
    requires 0 <= i <= |s|
  {
    forall j | 0 <= j < i :: !LineTerminator(s[j])
  }

  /** `(?=.*[k])` at the start of the input: a class-`k` character reached through `.*`. */
  predicate Lookahead(s: string, k: CharClass) {
    exists i | 0 <= i < |s| :: DotsUpTo(s, i) && InClass(s[i], k)
  }

  /** The whole pattern, read literally: the four lookaheads at position 0, then `.+$`. */
  predicate PasswordPattern(s: string) {
    Lookahead(s, UpperClass) && Lookahead(s, LowerClass) &&
    Lookahead(s, DigitClass) && Lookahead(s, SpecialClass) &&
    |s| >= 1 && DotsUpTo(s, |s|)
  }

  predicate HasClass(s: string, k: CharClass) {
    exists i | 0 <= i < |s| :: InClass(s[i], k)
  }

  /**
   * The password policy in words: not empty, no line terminator, at least one
   * ASCII upper-case letter, lower-case letter, digit, and character outside
   * `[A-Za-z0-9]`.
   */
  predicate PasswordPolicy(s: string) {
    s != [] && (forall i | 0 <= i < |s| :: !LineTerminator(s[i])) &&
    HasClass(s, UpperClass) && HasClass(s, LowerClass) &&
    HasClass(s, DigitClass) && HasClass(s, SpecialClass)
  }

  /** Once the string has no line terminator, a lookahead finds exactly the classes present. */
  lemma LookaheadIsHasClass(s: string, k: CharClass)
    requires DotsUpTo(s, |s|)
    ensures Lookahead(s, k) <==> HasClass(s, k)
  {
    if HasClass(s, k) {
      var i :| 0 <= i < |s| && InClass(s[i], k);
      assert DotsUpTo(s, i);
    }
  }

  /** The regular expression accepts exactly the strings meeting the policy. */
  lemma PasswordPatternIsPolicy(s: string)
    ensures PasswordPattern(s) <==> PasswordPolicy(s)
  {
    if DotsUpTo(s, |s|) {
      LookaheadIsHasClass(s, UpperClass);
      LookaheadIsHasClass(s, LowerClass);
      LookaheadIsHasClass(s, DigitClass);
      LookaheadIsHasClass(s, SpecialClass);
    }
  }

  /**
   * The password constraints shared by the DTOs:
   * `@IsNotEmpty() @IsString() @MinLength(8) @MaxLength(24) @Matches(pattern)`.
   */
  predicate ValidPassword(v: Field) {
    IsNotEmpty(v) && IsStringOfLength(v, 8, 24) && PasswordPattern(v.value.s)
  }

  /** A valid password is a string of 8 to 24 counted characters that meets the policy. */
  lemma ValidPasswordMeans(v: Field)
    ensures ValidPassword(v) <==>
      (v.Some? && v.value.RString? && 8 <= CountedLength(v.value.s) <= 24 && PasswordPolicy(v.value.s))
  {
    if v.Some? && v.value.RString? {
      PasswordPatternIsPolicy(v.value.s);
    }
  }

  /** The RoleEnum values, as `@IsEnum(RoleEnum)` accepts them. */
  const ROLE_VALUES: set<string> := {"superadmin", "admin", "user"}

  // ---------------------------------------------------------------------------
  // CreateUserDto
  // ---------------------------------------------------------------------------

  /** A create-user body as received: one field per declared property (others are stripped). */
  datatype CreateUserBody = CreateUserBody(name: Field, email: Field, password: Field, role: Field)

  /**
   * The validated DTO the service's `create` receives. `role` is `None` when
   * the DTO came from registration, whose class has no `role` property.
   */
  datatype CreateUserDto = CreateUserDto(name: string, email: string, password: string, role: Option<Role>)

  predicate ValidName(v: Field) {
    IsNotEmpty(v) && IsString(v)
  }

  predicate ValidEmail(v: Field, isEmail: string -> bool) {
    IsNotEmpty(v) && IsEmail(v, isEmail)
  }

  predicate ValidRole(v: Field) {
    IsNotEmpty(v) && IsEnumOf(v, ROLE_VALUES)
  }

  /** ValidationPipe on a CreateUserDto body: every constraint of every property or 400. */
  function ValidateCreateUser(body: CreateUserBody, isEmail: string -> bool): (r: Result<CreateUserDto, Error>)
    ensures r.Success? <==>
      ValidName(body.name) && ValidEmail(body.email, isEmail) &&
      ValidPassword(body.password) && ValidRole(body.role)
    ensures r.Failure? ==> r.error == ValidationFailed()
    ensures r.Success? ==>
      Some(RString(r.value.name)) == body.name && Some(RString(r.value.email)) == body.email &&
      Some(RString(r.value.password)) == body.password &&
      r.value.role.Some? && Some(RString(RoleName(r.value.role.value))) == body.role
  {
    if ValidName(body.name) && ValidEmail(body.email, isEmail) &&
       ValidPassword(body.password) && ValidRole(body.role)
    then
      var role := ParseRole(body.role.value.s);
      Success(CreateUserDto(body.name.value.s, body.email.value.s, body.password.value.s, role))
    else
      Failure(ValidationFailed())
  }

  /** A non-empty string is required for `name`: a missing, null or empty name is rejected. */
  lemma CreateRequiresName(body: CreateUserBody, isEmail: string -> bool)
    ensures ValidateCreateUser(body, isEmail).Success? ==>
      body.name.Some? && body.name.value.RString? && body.name.value.s != ""
  {
  }

  /** SUPERADMIN is a RoleEnum value, so the DTO lets it through; only the service refuses it. */
  lemma SuperadminPassesCreateValidation(body: CreateUserBody, isEmail: string -> bool)
    requires ValidName(body.name) && ValidEmail(body.email, isEmail) && ValidPassword(body.password)
    requires body.role == Some(RString("superadmin"))
    ensures ValidateCreateUser(body, isEmail).Success?
    ensures ValidateCreateUser(body, isEmail).value.role == Some(SUPERADMIN)
  {
    var r := ValidateCreateUser(body, isEmail);
    assert RoleName(r.value.role.value) == "superadmin";
  }

  /** A concrete eight-character password that meets every password constraint. */
  lemma SamplePasswordValid()
    ensures ValidPassword(Some(RString("Secret1!")))
  {
    var p := "Secret1!";
    assert forall i | 0 <= i < |p| :: !IsVariationSelector(p[i]) && !LineTerminator(p[i]);
    assert CountedLength(p) == 8;
    assert HasClass(p, UpperClass) by { assert InClass(p[0], UpperClass); }
    assert HasClass(p, LowerClass) by { assert InClass(p[1], LowerClass); }
    assert HasClass(p, DigitClass) by { assert InClass(p[6], DigitClass); }
    assert HasClass(p, SpecialClass) by { assert InClass(p[7], SpecialClass); }
    ValidPasswordMeans(Some(RString(p)));
  }

  // ---------------------------------------------------------------------------
  // UpdateUserDto = PartialType(CreateUserDto) + oldPassword
  // ---------------------------------------------------------------------------

  datatype UpdateUserBody = UpdateUserBody(name: Field, email: Field, password: Field, role: Field, oldPassword: Field)

  /** The validated update DTO; `None` is an absent property. */
  datatype UpdateUserDto = UpdateUserDto(
    name: Option<string>, email: Option<string>, password: Option<string>,
    role: Option<Role>, oldPassword: Option<string>)

  /** PartialType: each inherited property gets `@IsOptional()`, so null/undefined skip its checks. */
  predicate Optionally(v: Field, valid: bool) {
    IsNullish(v) || valid
  }

  /** `@IsString()` and the length/pattern checks, under `@ValidateIf(o => !!o.password)`. */
  predicate ValidOldPassword(body: UpdateUserBody) {
    !JsTruthy(body.password) || (IsStringOfLength(body.oldPassword, 8, 24) && PasswordPattern(body.oldPassword.value.s))
  }

  predicate UpdateBodyValid(body: UpdateUserBody, isEmail: string -> bool) {
    Optionally(body.name, ValidName(body.name)) &&
    Optionally(body.email, ValidEmail(body.email, isEmail)) &&
    Optionally(body.password, ValidPassword(body.password)) &&
    Optionally(body.role, ValidRole(body.role)) &&
    ValidOldPassword(body)
  }

  /** The string a field carries, if it carries one. */
  function StringOf(v: Field): (r: Option<string>)
    ensures r.Some? <==> v.Some? && v.value.RString?
    ensures r.Some? ==> v == Some(RString(r.value))
  {
    if v.Some? && v.value.RString? then Some(v.value.s) else None
  }

  /** ValidationPipe on an UpdateUserDto body. */
  function ValidateUpdateUser(body: UpdateUserBody, isEmail: string -> bool): (r: Result<UpdateUserDto, Error>)
    ensures r.Success? <==> UpdateBodyValid(body, isEmail)
    ensures r.Failure? ==> r.error == ValidationFailed()
    ensures r.Success? ==>
      r.value.name == StringOf(body.name) && r.value.email == StringOf(body.email) &&
      r.value.password == StringOf(body.password) && r.value.oldPassword == StringOf(body.oldPassword) &&
      (r.value.role.Some? <==> body.role.Some? && body.role.value.RString?) &&
      (r.value.role.Some? ==> body.role == Some(RString(RoleName(r.value.role.value))))
  {
    if UpdateBodyValid(body, isEmail) then
      var role := if body.role.Some? && body.role.value.RString? then ParseRole(body.role.value.s) else None;
      Success(UpdateUserDto(StringOf(body.name), StringOf(body.email), StringOf(body.password), role,
                            StringOf(body.oldPassword)))
    else
      Failure(ValidationFailed())
  }

  /** Every property is optional: the empty body is a valid update. */
  lemma EmptyUpdateIsValid(isEmail: string -> bool)
    ensures ValidateUpdateUser(UpdateUserBody(None, None, None, None, None), isEmail)
      == Success(UpdateUserDto(None, None, None, None, None))
  {
  }

  /** A password in a valid update is never empty: `@IsNotEmpty()` still applies to a present value. */
  lemma UpdatePasswordNonEmpty(body: UpdateUserBody, isEmail: string -> bool)
    ensures ValidateUpdateUser(body, isEmail).Success? && ValidateUpdateUser(body, isEmail).value.password.Some? ==>
      ValidateUpdateUser(body, isEmail).value.password.value != ""
  {
  }

  /** `oldPassword` is not looked at unless `password` is truthy. */
  lemma OldPasswordIgnoredWithoutPassword(body: UpdateUserBody, other: Field, isEmail: string -> bool)
    requires !JsTruthy(body.password)
    ensures ValidateUpdateUser(body, isEmail).Success? == ValidateUpdateUser(body.(oldPassword := other), isEmail).Success?
  {
  }

  /** With a truthy password, `oldPassword` must be a string of 8-24 counted characters meeting the policy. */
  lemma OldPasswordCheckedWithPassword(body: UpdateUserBody, isEmail: string -> bool)
    requires JsTruthy(body.password)
    ensures ValidateUpdateUser(body, isEmail).Success? ==>
      body.oldPassword.Some? && body.oldPassword.value.RString? &&
      8 <= CountedLength(body.oldPassword.value.s) <= 24 && PasswordPolicy(body.oldPassword.value.s)
  {
    if body.oldPassword.Some? && body.oldPassword.value.RString? {
      PasswordPatternIsPolicy(body.oldPassword.value.s);
    }
  }

  /** An update body may set the role to SUPERADMIN. */
  lemma UpdateMayGrantSuperadmin(isEmail: string -> bool)
    ensures ValidateUpdateUser(UpdateUserBody(None, None, None, Some(RString("superadmin")), None), isEmail)
      == Success(UpdateUserDto(None, None, None, Some(SUPERADMIN), None))
  {
  }
}
