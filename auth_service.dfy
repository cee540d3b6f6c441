/** `AuthService` of the `backend` module: signup and login against the user
    repository, with the email normalised first. The password encoder and the
    token generator are functions the service is given, about which nothing
    is assumed. */
module AuthService {
  import opened Wrappers
  import opened Entities
  import opened Strings
  import JavaText
  import SignupRequests

  /** `email.trim().toLowerCase()`. */
  function NormalizeEmail(email: string): string {
    JavaText.ToLowerCase(JavaText.Trim(email))
  }

  /** A normalised email normalises to itself. */
  lemma NormalizeIdempotent(email: string)
    ensures NormalizeEmail(NormalizeEmail(email)) == NormalizeEmail(email)
  {
    var t := JavaText.Trim(email);
    JavaText.TrimLowerCommute(t);
    JavaText.TrimIdempotent(email);
    JavaText.ToLowerCaseIdempotent(t);
  }

  /** Emails that differ only in the case of their letters and in padding
      around them (characters at or below U+0020) normalise alike. */
  lemma NormalizeIgnoresCaseAndPadding(before: string, email: string, after: string, other: string)
    requires All(before, JavaText.IsTrimmed) && All(after, JavaText.IsTrimmed)
    requires JavaText.ToLowerCase(email) == JavaText.ToLowerCase(other)
    ensures NormalizeEmail(before + email + after) == NormalizeEmail(other)
  {
    JavaText.TrimIgnoresPadding(before, email, after);
    JavaText.TrimLowerCommute(email);
    JavaText.TrimLowerCommute(other);
  }

  /** The body of a login call. */
  datatype LoginRequest = LoginRequest(email: string, password: string)

  /** What signup and login return: the token, the name and the email. */
  datatype TokenResponse = TokenResponse(token: string, name: string, email: string)

  /** `existsByEmail`. */
  ghost predicate EmailTaken(users: map<string, User>, email: string) {
    exists id :: id in users && users[id].email == email
  }

  /** No two accounts share an email, so `findByEmail` has at most one
      answer. */
  ghost predicate UniqueEmails(users: map<string, User>) {
    forall a, b :: a in users && b in users && users[a].email == users[b].email ==> a == b
  }

  /** Adding an account under a new id with an email nobody has keeps the
      repository keyed by id and the emails unique. */
  lemma InsertKeepsUnique(users: map<string, User>, user: User)
    requires UsersKeyedById(users) && UniqueEmails(users)
    requires user.id !in users && !EmailTaken(users, user.email)
    ensures UsersKeyedById(users[user.id := user]) && UniqueEmails(users[user.id := user])
  {
    var next := users[user.id := user];
    forall a, b | a in next && b in next && next[a].email == next[b].email
      ensures a == b
    {
      if a != user.id && b != user.id {
        assert users[a].email == users[b].email;
      }
    }
  }

  class AuthService {
    /** The user repository, by user id. */
    var users: map<string, User>
    /** `PasswordEncoder.encode`. */
    const encode: string -> string
    /** `PasswordEncoder.matches(raw, encoded)`. */
    const matches: (string, string) -> bool
    /** `JwtUtil.generateToken(userId, email)`. */
    const generateToken: (string, string) -> string

    ghost predicate Valid()
      reads this
    {
      UsersKeyedById(users) && UniqueEmails(users)
    }

    constructor (users: map<string, User>, encode: string -> string,
                 matches: (string, string) -> bool, generateToken: (string, string) -> string)
      requires UsersKeyedById(users) && UniqueEmails(users)
      ensures Valid() && this.users == users
      ensures this.encode == encode && this.matches == matches && this.generateToken == generateToken
    {
      this.users := users;
      this.encode := encode;
      this.matches := matches;
      this.generateToken := generateToken;
    }

    /** `signup`: CONFLICT when the normalised email has an account, and
        nothing saved; otherwise a new account with the normalised email, the
        name as given and the encoded password, under the id the repository
        hands out. Emails stay unique. The fields are non-null because the
        controller validates the body first (see `ValidatedSignup`). */
    method Signup(request: SignupRequests.SignupRequest, freshId: string)
      returns (r: Result<TokenResponse, Exception>)
      requires Valid() && freshId !in users
      requires request.email.Some? && request.name.Some? && request.password.Some?
      modifies this`users
      ensures Valid()
      ensures var email := NormalizeEmail(request.email.value);
        EmailTaken(old(users), email) ==>
          r == Failure(Status(Conflict, "Email already exists")) && users == old(users)
      ensures var email := NormalizeEmail(request.email.value);
        var name := request.name.value;
        !EmailTaken(old(users), email) ==>
          && users == old(users)[freshId := User(freshId, email, name, encode(request.password.value), None, None)]
          && r == Success(TokenResponse(generateToken(freshId, email), name, email))
      ensures r.Success? ==> EmailTaken(users, NormalizeEmail(request.email.value))
    {
      var email := NormalizeEmail(request.email.value);
      var taken := exists id :: id in users && users[id].email == email;
      if taken {
        return Failure(Status(Conflict, "Email already exists"));
      }
      var user := User(freshId, email, request.name.value, encode(request.password.value), None, None);
      InsertKeepsUnique(users, user);
      users := users[freshId := user];
      assert users[freshId].email == email;
      var token := generateToken(user.id, user.email);
      r := Success(TokenResponse(token, user.name, user.email));
    }

    /** The signup route: a body that fails any constraint is rejected
        before the service runs, and the accounts stay as they were. */
    method ValidatedSignup(request: SignupRequests.SignupRequest, isEmail: string -> bool, freshId: string)
      returns (r: Result<TokenResponse, Exception>)
      requires Valid() && freshId !in users
      modifies this`users
      ensures Valid()
      ensures !SignupRequests.Valid(request, isEmail) ==> r == Failure(ValidationFailed) && users == old(users)
      ensures SignupRequests.Valid(request, isEmail) && !EmailTaken(old(users), NormalizeEmail(request.email.value)) ==>
        r.Success? && freshId in users
    {
      if !SignupRequests.Valid(request, isEmail) {
        return Failure(ValidationFailed);
      }
      r := Signup(request, freshId);
    }

    /** `login`: NOT_FOUND when no account has the normalised email,
        UNAUTHORIZED when the encoder says the password does not match, and
        otherwise a token for that account. Login changes nothing. */
    method Login(request: LoginRequest) returns (r: Result<TokenResponse, Exception>)
      requires Valid()
      ensures !EmailTaken(users, NormalizeEmail(request.email)) ==>
        r == Failure(Status(NotFound, "User not found"))
      ensures forall id :: id in users && users[id].email == NormalizeEmail(request.email) ==>
        var u := users[id];
        && (!matches(request.password, u.password) ==> r == Failure(Status(Unauthorized, "Invalid credentials")))
        && (matches(request.password, u.password) ==> r == Success(TokenResponse(generateToken(u.id, u.email), u.name, u.email)))
    {
      var email := NormalizeEmail(request.email);
      if !exists id :: id in users && users[id].email == email {
        return Failure(Status(NotFound, "User not found"));
      }
      var id :| id in users && users[id].email == email;
      var user := users[id];
      if !matches(request.password, user.password) {
        return Failure(Status(Unauthorized, "Invalid credentials"));
      }
      var token := generateToken(user.id, user.email);
      r := Success(TokenResponse(token, user.name, user.email));
    }
  }

  /** Two signups whose emails differ only in case and surrounding padding:
      the second is a CONFLICT whether or not the first succeeded. */
  method SignupTwice(service: AuthService, first: SignupRequests.SignupRequest,
                     second: SignupRequests.SignupRequest, id1: string, id2: string)
    returns (r1: Result<TokenResponse, Exception>, r2: Result<TokenResponse, Exception>)
    requires service.Valid() && id1 !in service.users && id2 !in service.users && id1 != id2
    requires first.email.Some? && first.name.Some? && first.password.Some?
    requires second.email.Some? && second.name.Some? && second.password.Some?
    requires NormalizeEmail(first.email.value) == NormalizeEmail(second.email.value)
    modifies service
    ensures r2 == Failure(Status(Conflict, "Email already exists"))
  {
    r1 := service.Signup(first, id1);
    r2 := service.Signup(second, id2);
  }
}
