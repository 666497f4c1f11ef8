/**
 * RegisterDto = OmitType(CreateUserDto, ['role']) plus `confirmPassword`.
 * The omitted `role` is not a property of the class, so the whitelisting
 * ValidationPipe strips it from the body.
 */
module RegisterDtos {
  import opened Wrappers
  import opened Domain
  import opened ClassValidator
  import opened UserDtos

  /** A registration body as received, including a `role` key a client may send. */
  datatype RegisterBody = RegisterBody(name: Field, email: Field, password: Field, role: Field, confirmPassword: Field)

  datatype RegisterDto = RegisterDto(name: string, email: string, password: string, confirmPassword: string)

  predicate RegisterBodyValid(body: RegisterBody, isEmail: string -> bool) {
    ValidName(body.name) && ValidEmail(body.email, isEmail) &&
    ValidPassword(body.password) && ValidPassword(body.confirmPassword)
  }

  /** ValidationPipe on a RegisterDto body; `role` takes no part. */
  function ValidateRegister(body: RegisterBody, isEmail: string -> bool): (r: Result<RegisterDto, Error>)
    ensures r.Success? <==> RegisterBodyValid(body, isEmail)
    ensures r.Failure? ==> r.error == ValidationFailed()
    ensures r.Success? ==>
      body.name == Some(RString(r.value.name)) && body.email == Some(RString(r.value.email)) &&
      body.password == Some(RString(r.value.password)) &&
      body.confirmPassword == Some(RString(r.value.confirmPassword))
  {
    if RegisterBodyValid(body, isEmail) then
      Success(RegisterDto(body.name.value.s, body.email.value.s, body.password.value.s, body.confirmPassword.value.s))
    else
      Failure(ValidationFailed())
  }

  /** The DTO as the user service's `create` sees it: no role, and `confirmPassword` is not a user field. */
  function AsCreateUserDto(d: RegisterDto): (c: CreateUserDto)
    ensures c.role.None?
    ensures c.name == d.name && c.email == d.email && c.password == d.password
  {
    CreateUserDto(d.name, d.email, d.password, None)
  }

  /** Whatever `role` the client sends, the validated registration is the same. */
  lemma RoleIsStripped(body: RegisterBody, role: Field, isEmail: string -> bool)
    ensures ValidateRegister(body.(role := role), isEmail) == ValidateRegister(body, isEmail)
  {
  }

  /** `confirmPassword` is a non-empty string of 8-24 counted characters meeting the password policy. */
  lemma ConfirmPasswordConstraints(body: RegisterBody, isEmail: string -> bool)
    ensures ValidateRegister(body, isEmail).Success? ==>
      var c := ValidateRegister(body, isEmail).value.confirmPassword;
      c != "" && 8 <= CountedLength(c) <= 24 && PasswordPolicy(c)
  {
    ValidPasswordMeans(body.confirmPassword);
  }

  /**
   * `confirmPassword` is never compared with `password`: replacing it by any
   * other valid password leaves the registration valid and hands the service
   * the same user.
   */
  lemma ConfirmationNeverCompared(body: RegisterBody, other: string, isEmail: string -> bool)
    requires ValidateRegister(body, isEmail).Success?
    requires ValidPassword(Some(RString(other)))
    ensures ValidateRegister(body.(confirmPassword := Some(RString(other))), isEmail).Success?
    ensures AsCreateUserDto(ValidateRegister(body.(confirmPassword := Some(RString(other))), isEmail).value)
         == AsCreateUserDto(ValidateRegister(body, isEmail).value)
  {
  }
}
