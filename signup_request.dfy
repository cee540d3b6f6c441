/** `SignupRequest` of the `backend` module: its bean-validation
    constraints as one predicate. */
module SignupRequests {
  import opened Wrappers
  import opened Strings
  import JavaText

  /** The JSON body of a signup call; absent fields are `null`. */
  datatype SignupRequest = SignupRequest(email: Option<string>, name: Option<string>, password: Option<string>)

  /** `@NotBlank`: not null, and something is left after `trim()`. */
  predicate NotBlank(value: Option<string>) {
    value.Some? && JavaText.Trim(value.value) != []
  }

  /** `@Size(min, max)` on a non-null value (`max` None: no upper bound). */
  predicate SizeWithin(value: string, min: nat, max: Option<nat>) {
    min <= |value| && (max.None? || |value| <= max.value)
  }

  const NameMin: nat := 3
  const NameMax: nat := 50
  const PasswordMin: nat := 6

  /** All constraints of the request: email not blank and well formed
      (`isEmail` stands for the `@Email` check), name not blank with 3 to 50
      characters, password not blank with at least 6. */
  predicate Valid(request: SignupRequest, isEmail: string -> bool) {
    && NotBlank(request.email) && isEmail(request.email.value)
    && NotBlank(request.name) && SizeWithin(request.name.value, NameMin, Some(NameMax))
    && NotBlank(request.password) && SizeWithin(request.password.value, PasswordMin, None)
  }

  /** A whitespace-only or empty email is never valid, however the other
      fields look. */
  lemma BlankEmailInvalid(request: SignupRequest, isEmail: string -> bool)
    requires request.email.Some? && All(request.email.value, JavaText.IsTrimmed)
    ensures !Valid(request, isEmail)
  {
    TrimByEmptyIff(request.email.value, JavaText.IsTrimmed);
  }

  /** A valid request has non-null fields, a name of 3 to 50 characters
      and a password of at least 6. */
  lemma ValidBounds(request: SignupRequest, isEmail: string -> bool)
    requires Valid(request, isEmail)
    ensures request.email.Some? && request.name.Some? && request.password.Some?
    ensures 3 <= |request.name.value| <= 50 && |request.password.value| >= 6
  {
  }

  /** No upper bound on the password: lengthening the password of a valid
      request keeps it valid. */
  lemma {:induction false} PasswordUnbounded(request: SignupRequest, isEmail: string -> bool, extra: string)
    requires Valid(request, isEmail)
    ensures Valid(request.(password := Some(request.password.value + extra)), isEmail)
  {
    var p := request.password.value;
    var longer := p + extra;
    TrimByNonEmptyExtends(p, extra, JavaText.IsTrimmed);
    var changed := request.(password := Some(longer));
    assert changed.email == request.email && changed.name == request.name;
    assert NotBlank(changed.password);
    assert SizeWithin(longer, PasswordMin, None);
  }
}
