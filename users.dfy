/**
 * model/bo/UserBO.java: the format checks on account fields, and the order of the checks
 * made when an account is registered or a login is attempted. The users table is a map by
 * user name; the BCrypt library is replaced by the hash and the verdict it would give.
 */
module Users {
  import opened Wrappers
  import opened Text
  import opened Passwords

  const MIN_USERNAME: nat := 3
  const MAX_USERNAME: nat := 20
  const MIN_PASSWORD: nat := 6

  /** A row of the users table, as far as this layer reads it. */
  datatype User = User(username: string, password: Option<string>, email: Option<string>)

  type Table = map<string, User>

  // ---------------------------------------------------------------- formats

  /** The characters of `[a-zA-Z0-9_]`. */
  predicate IsWordChar(c: char)
  {
    IsAlnum(c) || c == '_'
  }

  /** isValidUsername: non-null and `[a-zA-Z0-9_]{3,20}` over the whole string. */
  predicate IsValidUsername(username: Option<string>)
  {
    username.Some? && MIN_USERNAME <= |username.value| <= MAX_USERNAME &&
    forall i :: 0 <= i < |username.value| ==> IsWordChar(username.value[i])
  }

  /** The characters of `[A-Za-z0-9+_.-]`, which may come before the '@'. */
  predicate IsLocalChar(c: char)
  {
    IsAlnum(c) || c == '+' || c == '_' || c == '.' || c == '-'
  }

  /** The characters `.` does not match in a Java regular expression: the line terminators. */
  predicate IsLineTerminator(c: char)
  {
    c == '\n' || c == '\r' || c == '\U{0085}' || c == '\U{2028}' || c == '\U{2029}'
  }

  predicate LocalPart(s: string)
  {
    s != [] && forall i :: 0 <= i < |s| ==> IsLocalChar(s[i])
  }

  predicate DomainPart(s: string)
  {
    s != [] && forall i :: 0 <= i < |s| ==> !IsLineTerminator(s[i])
  }

  /**
   * isValidEmail, computed: the text before the first '@' is a non-empty run of
   * `[A-Za-z0-9+_.-]`, and the text after it is at least one character, none a line end.
   */
  predicate IsValidEmail(email: Option<string>)
  {
    email.Some? &&
    var e := email.value;
    var at := IndexOf(e, '@');
    at > 0 && LocalPart(e[..at]) && DomainPart(e[at + 1..])
  }

  /**
   * The computed check agrees with the pattern `^[A-Za-z0-9+_.-]+@(.+)$`, which matches
   * when some split of the address around an '@' fits it.
   */
  lemma EmailMatchesPattern(e: string)
    ensures IsValidEmail(Some(e)) <==>
              exists i :: 0 < i < |e| && e[i] == '@' && LocalPart(e[..i]) && DomainPart(e[i + 1..])
  {
    var at := IndexOf(e, '@');
    if exists i :: 0 < i < |e| && e[i] == '@' && LocalPart(e[..i]) && DomainPart(e[i + 1..]) {
      var i :| 0 < i < |e| && e[i] == '@' && LocalPart(e[..i]) && DomainPart(e[i + 1..]);
      assert '@' !in e[..i] by {
        forall k | 0 <= k < i ensures e[k] != '@' {
          assert e[..i][k] == e[k];
          assert IsLocalChar(e[..i][k]);
        }
      }
      assert at == i;
    }
  }

  /** isValidPassword: non-null and at least six characters. */
  predicate IsValidPassword(password: Option<string>)
  {
    password.Some? && |password.value| >= MIN_PASSWORD
  }

  // ---------------------------------------------------------------- lookups

  /** getUserByUsername: the row with that name; a null name matches nothing. */
  function ByUsername(users: Table, username: Option<string>): (r: Option<User>)
    ensures r.Some? <==> username.Some? && username.value in users
    ensures r.Some? ==> r.value == users[username.value]
  {
    if username.Some? && username.value in users then Some(users[username.value]) else None
  }

  /** getUserByEmail finds a row: some row holds that address; a null address matches nothing. */
  predicate EmailTaken(users: Table, email: Option<string>)
  {
    email.Some? && exists name :: name in users && users[name].email == email
  }

  // ---------------------------------------------------------------- register

  /**
   * register: false when the name is taken (checked first), false when the address is
   * taken; otherwise the password is hashed (a missing password is refused with the
   * hasher's exception) and the row is inserted, `created` saying whether the insert
   * succeeded (a row without a name is taken not to be stored). The result comes with the
   * table afterwards.
   */
  function Register(users: Table, username: Option<string>, password: Option<string>,
                    email: Option<string>, hash: string, created: bool): (r: (Result<bool>, Table))
    ensures r.0 == Ok(true) <==>
              username.Some? && username.value !in users && !EmailTaken(users, email) && !NullOrBlank(password) && created
    ensures r.0 == Ok(true) ==> r.1 == users[username.value := User(username.value, Some(hash), email)]
    ensures r.0 != Ok(true) ==> r.1 == users
    ensures r.0.Err? ==> r.0.error == PASSWORD_MISSING
  {
    if ByUsername(users, username).Some? then (Ok(false), users)
    else if EmailTaken(users, email) then (Ok(false), users)
    else
      match HashPassword(password, hash)
      case Err(message) => (Err(message), users)
      case Ok(hashed) =>
        if created && username.Some? then (Ok(true), users[username.value := User(username.value, Some(hashed), email)])
        else (Ok(false), users)
  }

  /**
   * The name is checked before anything else: a taken name is refused whatever the address
   * and the password, and the table does not change.
   */
  lemma TakenNameRefusedFirst(users: Table, username: string, password: Option<string>,
                              email: Option<string>, hash: string, created: bool)
    requires username in users
    ensures Register(users, Some(username), password, email, hash, created) == (Ok(false), users)
  {
  }

  /** A name registered once cannot be registered again. */
  lemma RegisterTwiceRefused(users: Table, username: string, password: Option<string>,
                             email: Option<string>, hash: string,
                             password2: Option<string>, email2: Option<string>, hash2: string, created2: bool)
    requires Register(users, Some(username), password, email, hash, true).0 == Ok(true)
    ensures var after := Register(users, Some(username), password, email, hash, true).1;
            Register(after, Some(username), password2, email2, hash2, created2) == (Ok(false), after)
  {
  }

  // ---------------------------------------------------------------- authenticate

  /**
   * authenticate: null for an unknown name; otherwise the password check on the stored
   * hash (its refusals propagate) decides between the row and null. `verdict` is what the
   * library says of this password and hash.
   */
  function Authenticate(users: Table, username: Option<string>, password: Option<string>,
                        verdict: Option<bool>): (r: Result<Option<User>>)
    ensures ByUsername(users, username).None? ==> r == Ok(None)
    ensures r.Ok? && r.value.Some? <==>
              ByUsername(users, username).Some? &&
              CheckPassword(password, ByUsername(users, username).value.password, verdict) == Ok(true)
    ensures r.Ok? && r.value.Some? ==> r.value.value == users[username.value]
  {
    match ByUsername(users, username)
    case None => Ok(None)
    case Some(user) =>
      match CheckPassword(password, user.password, verdict)
      case Err(message) => Err(message)
      case Ok(matches) => Ok(if matches then Some(user) else None)
  }

  /** Right after registering, the same name and password log in, given a hash that is not blank. */
  lemma RegisteredUserAuthenticates(users: Table, username: string, password: Option<string>,
                                    email: Option<string>, hash: string)
    requires Register(users, Some(username), password, email, hash, true).0 == Ok(true)
    requires !IsBlank(hash)
    ensures var after := Register(users, Some(username), password, email, hash, true).1;
            Authenticate(after, Some(username), password, Some(true)) ==
              Ok(Some(User(username, Some(hash), email)))
  {
  }
}
