/**
 * The account routes: `POST /register`, `POST /login` and `GET /profile`.
 * bcrypt and jsonwebtoken are oracles passed in by the caller: `hash` is `bcrypt.hash(_, 10)`,
 * `compare` is `bcrypt.compare`, `sign` is `jwt.sign({ userId }, secret, { expiresIn: '7d' })`
 * and `verify` is `jwt.verify` reduced to the `userId` claim.
 */
module Accounts {
  import opened Wrappers
  import opened Js
  import opened Seqs
  import opened Records
  import Middleware

  const MsgRegisterRequired := "Name, email, and password are required"
  const MsgPasswordTooShort := "Password must be at least 6 characters"
  const MsgInvalidEmail := "Invalid email format"
  const MsgUserExists := "User already exists"
  const MsgUserCreated := "User created successfully"
  const MsgLoginRequired := "Email and password are required"
  const MsgInvalidCredentials := "Invalid credentials"
  const MsgUserNotFound := "User not found"
  const MinPasswordLength := 6

  // ---------------------------------------------------------------------------
  // The email shape check /^[^\s@]+@[^\s@]+\.[^\s@]+$/

  /** A character of the class `[^\s@]`. */
  predicate EmailChar(c: char)
  {
    !IsWhitespace(c) && c != '@'
  }

  /** A match of `[^\s@]+`. */
  predicate Segment(x: string)
  {
    |x| > 0 && forall i :: 0 <= i < |x| ==> EmailChar(x[i])
  }

  /** The language of the regular expression: three `[^\s@]+` runs joined by `@` and `.`. */
  ghost predicate MatchesEmailRegex(s: string)
  {
    exists local: string, host: string, tld: string ::
      Segment(local) && Segment(host) && Segment(tld) && s == local + "@" + host + "." + tld
  }

  /**
   * The check as it is computed: no whitespace, exactly one `@` and not in front, and a `.`
   * in the domain with a character on each side of it.
   */
  predicate IsValidEmail(s: string)
  {
    && (forall i | 0 <= i < |s| :: !IsWhitespace(s[i]))
    && exists at | 0 < at < |s| ::
         && s[at] == '@'
         && (forall j | 0 <= j < |s| && j != at :: s[j] != '@')
         && exists dot | at + 1 < dot < |s| - 1 :: s[dot] == '.'
  }

  /** The computed check accepts exactly the strings the regular expression matches. */
  lemma EmailCheckMatchesRegex(s: string)
    ensures IsValidEmail(s) <==> MatchesEmailRegex(s)
  {
    if IsValidEmail(s) {
      EmailCheckSound(s);
    }
    if MatchesEmailRegex(s) {
      EmailCheckComplete(s);
    }
  }

  lemma EmailCheckSound(s: string)
    requires IsValidEmail(s)
    ensures MatchesEmailRegex(s)
  {
    var at :| 0 < at < |s| && s[at] == '@' && (forall j | 0 <= j < |s| && j != at :: s[j] != '@') &&
              exists dot | at + 1 < dot < |s| - 1 :: s[dot] == '.';
    var dot :| at + 1 < dot < |s| - 1 && s[dot] == '.';
    var local, host, tld := s[..at], s[at + 1..dot], s[dot + 1..];
    assert Segment(local) by {
      forall i | 0 <= i < |local| ensures EmailChar(local[i]) {
        assert local[i] == s[i];
      }
    }
    assert Segment(host) by {
      forall i | 0 <= i < |host| ensures EmailChar(host[i]) {
        assert host[i] == s[at + 1 + i];
      }
    }
    assert Segment(tld) by {
      forall i | 0 <= i < |tld| ensures EmailChar(tld[i]) {
        assert tld[i] == s[dot + 1 + i];
      }
    }
    assert s == local + "@" + host + "." + tld;
  }

  lemma EmailCheckComplete(s: string)
    requires MatchesEmailRegex(s)
    ensures IsValidEmail(s)
  {
    var local: string, host: string, tld: string :|
      Segment(local) && Segment(host) && Segment(tld) && s == local + "@" + host + "." + tld;
    var at, dot := |local|, |local| + 1 + |host|;
    assert s[..at] == local && s[at] == '@';
    assert s[at + 1..dot] == host && s[dot] == '.';
    assert s[dot + 1..] == tld;
    forall i | 0 <= i < |s|
      ensures !IsWhitespace(s[i]) && (i != at ==> s[i] != '@')
    {
      if i < at {
        assert s[i] == s[..at][i];
      } else if at < i < dot {
        assert s[i] == s[at + 1..dot][i - at - 1];
      } else if dot < i {
        assert s[i] == s[dot + 1..][i - dot - 1];
      }
    }
    assert at + 1 < dot < |s| - 1;
  }

  // ---------------------------------------------------------------------------
  // Lookups and the password-stripping view

  /** Holds of the accounts whose email equals the given one exactly. */
  function HasEmail(email: string): User -> bool
  {
    (u: User) => u.email == email
  }

  /** Puts a password digest back into a public view. */
  function WithPassword(p: PublicUser, password: string): User
  {
    User(p.id, p.name, p.email, password, p.bio, p.avatar, p.createdAt)
  }

  /**
   * The public view of an account: every field but the password digest. Nothing else is
   * lost, since putting the password back restores the stored record.
   */
  function WithoutPassword(u: User): (p: PublicUser)
    ensures WithPassword(p, u.password) == u
  {
    PublicUser(u.id, u.name, u.email, u.bio, u.avatar, u.createdAt)
  }

  /** Two records have the same view exactly when they differ at most in the password. */
  lemma StripPasswordOnlyForgetsPassword(u: User, v: User)
    ensures WithoutPassword(u) == WithoutPassword(v) <==> u.(password := v.password) == v
  {
  }

  // ---------------------------------------------------------------------------
  // POST /register

  /** `req.body` of a registration. */
  datatype RegisterForm = RegisterForm(name: Field, email: Field, password: Field, bio: Field)

  /** The three required fields are present and non-empty. */
  predicate HasRequiredFields(form: RegisterForm)
  {
    Truthy(form.name) && Truthy(form.email) && Truthy(form.password)
  }

  /** The request passes all three validation steps. */
  ghost predicate AcceptableForm(form: RegisterForm)
  {
    && HasRequiredFields(form)
    && Utf16Length(form.password.value) >= MinPasswordLength
    && MatchesEmailRegex(form.email.value)
  }

  /** Some stored account has exactly this email (case-sensitive). */
  ghost predicate EmailTaken(users: seq<User>, email: string)
  {
    exists i :: 0 <= i < |users| && users[i].email == email
  }

  /** The account a successful registration appends. */
  function NewUser(form: RegisterForm, id: string, createdAt: string, hash: string -> string): User
    requires HasRequiredFields(form)
  {
    User(id, form.name.value, form.email.value, hash(form.password.value), OrEmpty(form.bio), "", createdAt)
  }

  /**
   * The answer to a registration and the `users` collection afterwards. `id` is
   * `Date.now().toString()` and `createdAt` the ISO timestamp, both supplied by the caller.
   */
  function RegisterOutcome(users: seq<User>, form: RegisterForm, id: string, createdAt: string,
                           hash: string -> string): (r: (Response<string>, seq<User>))
    ensures !HasRequiredFields(form) ==> r == (Error(400, MsgRegisterRequired), users)
    ensures HasRequiredFields(form) && Utf16Length(form.password.value) < MinPasswordLength ==>
              r == (Error(400, MsgPasswordTooShort), users)
    ensures HasRequiredFields(form) && Utf16Length(form.password.value) >= MinPasswordLength &&
            !MatchesEmailRegex(form.email.value) ==>
              r == (Error(400, MsgInvalidEmail), users)
    ensures AcceptableForm(form) && EmailTaken(users, form.email.value) ==>
              r == (Error(400, MsgUserExists), users)
    ensures AcceptableForm(form) && !EmailTaken(users, form.email.value) ==>
              && r.0 == Success(201, MsgUserCreated)
              && |r.1| == |users| + 1
              && r.1[..|users|] == users
              && var u := r.1[|users|];
                 u.id == id && u.name == form.name.value && u.email == form.email.value &&
                 u.password == hash(form.password.value) && u.bio == OrEmpty(form.bio) &&
                 u.avatar == "" && u.createdAt == createdAt
  {
    if !HasRequiredFields(form) then (Error(400, MsgRegisterRequired), users)
    else if Utf16Length(form.password.value) < MinPasswordLength then (Error(400, MsgPasswordTooShort), users)
    else
      EmailCheckMatchesRegex(form.email.value);
      if !IsValidEmail(form.email.value) then (Error(400, MsgInvalidEmail), users)
      else if Find(users, HasEmail(form.email.value)).Some? then (Error(400, MsgUserExists), users)
      else (Success(201, MsgUserCreated), users + [NewUser(form, id, createdAt, hash)])
  }

  /** The handler: validates, scans for the email, and pushes the new account onto `users`. */
  method Register(store: Store, form: RegisterForm, id: string, createdAt: string, hash: string -> string)
    returns (resp: Response<string>)
    modifies store`users
    ensures (resp, store.users) == RegisterOutcome(old(store.users), form, id, createdAt, hash)
  {
    if !(Truthy(form.name) && Truthy(form.email) && Truthy(form.password)) {
      return Error(400, MsgRegisterRequired);
    }
    if Utf16Length(form.password.value) < MinPasswordLength {
      return Error(400, MsgPasswordTooShort);
    }
    if !IsValidEmail(form.email.value) {
      return Error(400, MsgInvalidEmail);
    }
    var users := store.users;
    var existing := Find(users, HasEmail(form.email.value));
    if existing.Some? {
      return Error(400, MsgUserExists);
    }
    var newUser := NewUser(form, id, createdAt, hash);
    users := users + [newUser];
    store.users := users;
    resp := Success(201, MsgUserCreated);
  }

  /** Registering the same email a second time fails and leaves `users` as the first call left it. */
  lemma RegisterTwiceConflicts(users: seq<User>, form: RegisterForm, form2: RegisterForm,
                               id: string, id2: string, createdAt: string, createdAt2: string,
                               hash: string -> string)
    requires RegisterOutcome(users, form, id, createdAt, hash).0.Success?
    requires AcceptableForm(form2) && form2.email == form.email
    ensures var after := RegisterOutcome(users, form, id, createdAt, hash).1;
            RegisterOutcome(after, form2, id2, createdAt2, hash) == (Error(400, MsgUserExists), after)
  {
    var after := RegisterOutcome(users, form, id, createdAt, hash).1;
    assert AcceptableForm(form);
    assert after[|users|].email == form.email.value;
    assert EmailTaken(after, form2.email.value);
  }

  // ---------------------------------------------------------------------------
  // POST /login

  /** The body of a successful login. */
  datatype Session = Session(token: string, user: PublicUser)

  /** Some account has the email, and bcrypt accepts the password for the first such account. */
  ghost predicate CredentialsMatch(users: seq<User>, email: string, password: string,
                                   compare: (string, string) -> bool)
  {
    var k := FirstIndex(users, HasEmail(email));
    k.Some? && compare(password, users[k.value].password)
  }

  /** The login handler. */
  function Login(users: seq<User>, email: Field, password: Field, compare: (string, string) -> bool,
                 sign: string -> string): (r: Response<Session>)
    ensures !(Truthy(email) && Truthy(password)) ==> r == Error(400, MsgLoginRequired)
    ensures Truthy(email) && Truthy(password) && r.Error? ==> r == Error(400, MsgInvalidCredentials)
    ensures r.Success? <==> Truthy(email) && Truthy(password) &&
                            CredentialsMatch(users, email.value, password.value, compare)
    ensures r.Success? ==>
              && r.status == 200
              && exists k :: 0 <= k < |users| && users[k].email == email.value &&
                             (forall j :: 0 <= j < k ==> users[j].email != email.value) &&
                             compare(password.value, users[k].password) &&
                             r.value == Session(sign(users[k].id), WithoutPassword(users[k]))
  {
    if !(Truthy(email) && Truthy(password)) then Error(400, MsgLoginRequired)
    else match FirstIndex(users, HasEmail(email.value))
      case None => Error(400, MsgInvalidCredentials)
      case Some(k) =>
        var user := users[k];
        if !compare(password.value, user.password) then Error(400, MsgInvalidCredentials)
        else Success(200, Session(sign(user.id), WithoutPassword(user)))
  }

  /** An unknown email and a rejected password give the same answer. */
  lemma LoginFailuresIndistinguishable(users: seq<User>, email: string, password: string,
                                       compare: (string, string) -> bool, sign: string -> string,
                                       users2: seq<User>, compare2: (string, string) -> bool)
    requires email != "" && password != ""
    requires forall i :: 0 <= i < |users| ==> users[i].email != email
    requires exists i :: 0 <= i < |users2| && users2[i].email == email
    requires forall i :: 0 <= i < |users2| ==> !compare2(password, users2[i].password)
    ensures Login(users, Some(email), Some(password), compare, sign) ==
            Login(users2, Some(email), Some(password), compare2, sign)
  {
    assert FirstIndex(users, HasEmail(email)).None?;
  }

  /**
   * Logging in right after registering, with the same email and password, succeeds as the new
   * account, given that bcrypt accepts a password against its own digest.
   */
  lemma RegisterThenLogin(users: seq<User>, form: RegisterForm, id: string, createdAt: string,
                          hash: string -> string, compare: (string, string) -> bool, sign: string -> string)
    requires RegisterOutcome(users, form, id, createdAt, hash).0.Success?
    requires compare(form.password.value, hash(form.password.value))
    ensures HasRequiredFields(form)
    ensures Login(RegisterOutcome(users, form, id, createdAt, hash).1, form.email, form.password, compare, sign) ==
            Success(200, Session(sign(id), WithoutPassword(NewUser(form, id, createdAt, hash))))
  {
    var after := RegisterOutcome(users, form, id, createdAt, hash).1;
    assert AcceptableForm(form) && !EmailTaken(users, form.email.value);
    assert after == users + [NewUser(form, id, createdAt, hash)];
    var k := FirstIndex(after, HasEmail(form.email.value));
    assert k == Some(|users|) by {
      assert HasEmail(form.email.value)(after[|users|]);
      forall j | 0 <= j < |users| ensures !HasEmail(form.email.value)(after[j]) {
        assert after[j] == users[j];
      }
    }
  }

  // ---------------------------------------------------------------------------
  // GET /profile

  /** The profile handler: the token check of the middleware, then a lookup by the token's user id. */
  function Profile(header: Option<string>, verify: string -> Option<string>, users: seq<User>)
    : (r: Response<PublicUser>)
    ensures Middleware.Authenticate(header, verify).Denied? ==>
              r == Error(401, Middleware.Authenticate(header, verify).message)
    ensures Middleware.Authenticate(header, verify).Authorized? ==>
              var id := Middleware.Authenticate(header, verify).userId;
              && (r.Success? <==> exists i :: 0 <= i < |users| && users[i].id == id)
              && (r.Error? ==> r == Error(404, MsgUserNotFound))
              && (r.Success? ==> r.status == 200)
              && (r.Success? ==>
                    exists k :: 0 <= k < |users| && users[k].id == id &&
                                (forall j :: 0 <= j < k ==> users[j].id != id) &&
                                r.value == WithoutPassword(users[k]))
  {
    match Middleware.Authenticate(header, verify)
    case Denied(status, message) => Error(status, message)
    case Authorized(id) =>
      match Find(users, UserIdIs(id))
      case None => Error(404, MsgUserNotFound)
      case Some(user) => Success(200, WithoutPassword(user))
  }
}
