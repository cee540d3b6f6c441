/** The client session (`AuthContext`): the signed-in user, the loading
    flag, and the two browser-storage entries that persist a session. The
    sign-in calls are simulated on the client: they never fail and never
    reach a server. */
module AuthContext {
  import opened Wrappers
  import opened Strings

  /** The user record the context holds and persists. */
  datatype SessionUser = SessionUser(id: string, email: string, name: string)

  /** The outcome of `JSON.parse` on the stored user entry: it throws, or
      it gives a user or `null` (None). */
  datatype Parsed = Throws | Parses(value: Option<SessionUser>)

  const TokenKey := "omnify_token"
  const UserKey := "omnify_user"
  const TokenPrefix := "mock-jwt-token-"
  /** The id every simulated sign-in hands out. */
  const MockId := "1"

  /** `localStorage.getItem(key)` is neither null nor the empty string. */
  predicate Truthy(storage: map<string, string>, key: string) {
    key in storage && storage[key] != []
  }

  /** `'mock-jwt-token-' + Date.now()`. */
  function MockToken(now: nat): (token: string)
    ensures StartsWith(token, TokenPrefix)
    ensures |token| > |TokenPrefix| && All(token[|TokenPrefix|..], IsDigit)
    ensures DecimalValue(token[|TokenPrefix|..]) == now
  {
    DecimalRoundTrip(now);
    var token := TokenPrefix + Decimal(now);
    assert token[|TokenPrefix|..] == Decimal(now);
    token
  }

  /** `email.split('@')[0]`, the name a login derives. */
  function NameFromEmail(email: string): (name: string)
    ensures '@' !in name && StartsWith(email, name)
    ensures |name| < |email| ==> email[|name|] == '@'
    ensures '@' !in email ==> name == email
  {
    SplitFirst(email, '@');
    Split(email, '@')[0]
  }

  /** The storage after a session is persisted. */
  function Persisted(storage: map<string, string>, token: string, user: string): map<string, string> {
    storage[TokenKey := token][UserKey := user]
  }

  /** The storage after a session is removed. */
  function Cleared(storage: map<string, string>): (r: map<string, string>)
    ensures TokenKey !in r && UserKey !in r
    ensures forall k :: k in storage && k != TokenKey && k != UserKey ==> k in r && r[k] == storage[k]
    ensures r.Keys <= storage.Keys
  {
    storage - {TokenKey, UserKey}
  }

  /** Persisting or removing a session touches its two entries and no
      other key of the storage. */
  lemma SessionTouchesOnlyItsKeys(storage: map<string, string>, token: string, user: string, key: string)
    requires key != TokenKey && key != UserKey
    ensures key in Persisted(storage, token, user) <==> key in storage
    ensures key in storage ==> Persisted(storage, token, user)[key] == storage[key]
    ensures key in Cleared(storage) <==> key in storage
  {
  }

  /** Removing a session is idempotent. */
  lemma ClearedIdempotent(storage: map<string, string>)
    ensures Cleared(Cleared(storage)) == Cleared(storage)
  {
  }

  class AuthProvider {
    /** The signed-in user; None is `null`. */
    var user: Option<SessionUser>
    var isLoading: bool
    /** `localStorage`. */
    var storage: map<string, string>
    /** `JSON.parse` of a stored user entry. */
    const parse: string -> Parsed
    /** `JSON.stringify` of a user. */
    const stringify: SessionUser -> string

    /** `isAuthenticated`: `!!user`. */
    predicate IsAuthenticated()
      reads this
    {
      user.Some?
    }

    /** A signed-in user always has both storage entries behind it. */
    ghost predicate SessionPersisted()
      reads this
    {
      user.Some? ==> Truthy(storage, TokenKey) && Truthy(storage, UserKey)
    }

    /** `JSON.stringify` of an object is never the empty string, and a
        signed-in user has its session persisted. */
    ghost predicate Valid()
      reads this
    {
      (forall u :: stringify(u) != []) && SessionPersisted()
    }

    /** The provider as it mounts: no user yet and loading. */
    constructor (storage: map<string, string>, parse: string -> Parsed, stringify: SessionUser -> string)
      requires forall u :: stringify(u) != []
      ensures Valid()
      ensures user == None && isLoading && this.storage == storage
      ensures this.parse == parse && this.stringify == stringify
      ensures SessionPersisted()
    {
      this.user := None;
      this.isLoading := true;
      this.storage := storage;
      this.parse := parse;
      this.stringify := stringify;
    }

    /** The mount effect: when both entries are present and non-empty, a
        user entry that parses becomes the user (a parsed `null` leaves no
        user) and one that throws has both entries removed; with either
        entry missing or empty nothing happens. Loading ends in every case. */
    method Restore()
      requires Valid() && user == None
      modifies this
      ensures !isLoading && Valid()
      ensures Truthy(old(storage), TokenKey) && Truthy(old(storage), UserKey) && parse(old(storage)[UserKey]).Parses? ==>
        user == parse(old(storage)[UserKey]).value && storage == old(storage)
      ensures Truthy(old(storage), TokenKey) && Truthy(old(storage), UserKey) && parse(old(storage)[UserKey]).Throws? ==>
        user == None && storage == Cleared(old(storage))
      ensures !(Truthy(old(storage), TokenKey) && Truthy(old(storage), UserKey)) ==>
        user == None && storage == old(storage)
    {
      if Truthy(storage, TokenKey) && Truthy(storage, UserKey) {
        var parsed := parse(storage[UserKey]);
        if parsed.Parses? {
          user := parsed.value;
        } else {
          storage := storage - {TokenKey};
          storage := storage - {UserKey};
        }
      }
      isLoading := false;
    }

    /** `login`: a simulated success that persists a token stamped with
        `now` and a user with id '1', the given email and the part of the
        email before the first '@' as name. */
    method Login(email: string, password: string, now: nat)
      requires Valid()
      modifies this
      ensures user == Some(SessionUser(MockId, email, NameFromEmail(email)))
      ensures storage == Persisted(old(storage), MockToken(now), stringify(user.value))
      ensures !isLoading && IsAuthenticated() && Valid()
    {
      isLoading := true;
      var mockUser := SessionUser(MockId, email, Split(email, '@')[0]);
      var mockToken := TokenPrefix + Decimal(now);
      storage := storage[TokenKey := mockToken];
      storage := storage[UserKey := stringify(mockUser)];
      user := Some(mockUser);
      isLoading := false;
    }

    /** `signup`: as login, with the given name. */
    method Signup(name: string, email: string, password: string, now: nat)
      requires Valid()
      modifies this
      ensures user == Some(SessionUser(MockId, email, name))
      ensures storage == Persisted(old(storage), MockToken(now), stringify(user.value))
      ensures !isLoading && IsAuthenticated() && Valid()
    {
      isLoading := true;
      var mockUser := SessionUser(MockId, email, name);
      var mockToken := TokenPrefix + Decimal(now);
      storage := storage[TokenKey := mockToken];
      storage := storage[UserKey := stringify(mockUser)];
      user := Some(mockUser);
      isLoading := false;
    }

    /** `logout`: from any state, both entries removed and no user. */
    method Logout()
      requires Valid()
      modifies this
      ensures user == None && storage == Cleared(old(storage)) && isLoading == old(isLoading)
      ensures !IsAuthenticated() && Valid()
    {
      storage := storage - {TokenKey};
      storage := storage - {UserKey};
      user := None;
    }
  }

  /** A persisted session survives a reload whenever the stored user entry
      reads back as the user that was written: the session after a fresh
      mount and restore is the one login left. */
  method LoginThenReload(provider: AuthProvider, email: string, password: string, now: nat)
    returns (reloaded: AuthProvider)
    requires provider.Valid()
    requires forall u :: provider.parse(provider.stringify(u)) == Parses(Some(u))
    modifies provider
    ensures fresh(reloaded)
    ensures reloaded.user == provider.user && reloaded.storage == provider.storage && !reloaded.isLoading
  {
    provider.Login(email, password, now);
    reloaded := new AuthProvider(provider.storage, provider.parse, provider.stringify);
    reloaded.Restore();
  }

  /** Logging out twice leaves the same state as logging out once. */
  method LogoutTwice(provider: AuthProvider)
    requires provider.Valid()
    modifies provider
    ensures provider.user == None && provider.storage == Cleared(old(provider.storage))
  {
    provider.Logout();
    provider.Logout();
    ClearedIdempotent(old(provider.storage));
  }
}
