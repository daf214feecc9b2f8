/**
 * The authentication routes: the `verifyToken` middleware's parsing of the
 * Authorization header, registration, and login. Password hashing, the
 * password comparison and JWT signing and verification are abstract
 * oracles: a given hash value and function parameters.
 */
module AuthRoutes {
  import opened Tables

  datatype Option<T> = None | Some(value: T)

  /* ----------------------------------------------------- header splitting */

  /** JavaScript `s.split(sep)` for a one-character separator. */
  function Split(s: string, sep: char): (parts: seq<string>)
    ensures |parts| >= 1
    ensures forall i | 0 <= i < |parts| :: sep !in parts[i]
  {
    if s == [] then [""]
    else
      var rest := Split(s[1..], sep);
      if s[0] == sep then [""] + rest
      else [[s[0]] + rest[0]] + rest[1..]
  }

  /** `parts.join(sep)` */
  function Join(parts: seq<string>, sep: char): string
    requires |parts| >= 1
  {
    if |parts| == 1 then parts[0] else parts[0] + [sep] + Join(parts[1..], sep)
  }

  /** Joining the parts of a split gives back the string. */
  lemma {:induction false} JoinSplit(s: string, sep: char)
    ensures Join(Split(s, sep), sep) == s
  {
    if s != [] {
      JoinSplit(s[1..], sep);
      var rest := Split(s[1..], sep);
      if s[0] != sep {
        if |rest| > 1 {
          assert ([[s[0]] + rest[0]] + rest[1..])[1..] == rest[1..];
        }
      }
    }
  }

  lemma {:induction false} SplitNoSeparator(a: string, sep: char)
    requires sep !in a
    ensures Split(a, sep) == [a]
  {
    if a != [] {
      SplitNoSeparator(a[1..], sep);
      assert [a[0]] + a[1..] == a;
    }
  }

  lemma {:induction false} SplitAtFirst(a: string, sep: char, b: string)
    requires sep !in a
    ensures Split(a + [sep] + b, sep) == [a] + Split(b, sep)
  {
    if a == [] {
      assert a + [sep] + b == [sep] + b;
      assert ([sep] + b)[1..] == b;
    } else {
      assert (a + [sep] + b)[1..] == a[1..] + [sep] + b;
      SplitAtFirst(a[1..], sep, b);
      assert [a[0]] + a[1..] == a;
    }
  }

  /* --------------------------------------------- the verifyToken middleware */

  datatype HeaderParse = NoToken | BadFormat | Token(token: string)

  /**
   * `!authHeader` is 'No token provided'; otherwise the header split on ' '
   * must be exactly `["Bearer", token]`, else 'Invalid token format'.
   */
  function ParseAuthorization(header: Option<string>): (r: HeaderParse)
    ensures r == NoToken <==> header.None? || header.value == ""
  {
    if header.None? || header.value == "" then NoToken
    else
      var parts := Split(header.value, ' ');
      if |parts| != 2 || parts[0] != "Bearer" then BadFormat else Token(parts[1])
  }

  /** A header yields a token exactly when it is "Bearer " followed by a space-free token. */
  lemma ParseAuthorizationToken(header: Option<string>, t: string)
    ensures ParseAuthorization(header) == Token(t) <==> header == Some("Bearer " + t) && ' ' !in t
  {
    if header == Some("Bearer " + t) && ' ' !in t {
      assert "Bearer " + t == "Bearer" + [' '] + t;
      SplitAtFirst("Bearer", ' ', t);
      SplitNoSeparator(t, ' ');
    }
    if ParseAuthorization(header) == Token(t) {
      var parts := Split(header.value, ' ');
      JoinSplit(header.value, ' ');
      assert Join(parts, ' ') == parts[0] + [' '] + parts[1];
      assert parts[0] + [' '] + parts[1] == "Bearer " + t;
    }
  }

  /** A doubled space, or a lower-case scheme, is 'Invalid token format'. */
  lemma ParseAuthorizationRejects()
    ensures ParseAuthorization(Some("Bearer  x")) == BadFormat
    ensures ParseAuthorization(Some("bearer x")) == BadFormat
  {
  }

  /** "Bearer " passes the format check with the empty token. */
  lemma ParseAuthorizationEmptyToken()
    ensures ParseAuthorization(Some("Bearer ")) == Token("")
  {
  }

  const NoTokenMessage := "Access denied. No token provided."
  const FormatMessage := "Invalid token format"
  const InvalidMessage := "Invalid token"

  datatype AuthResult = Denied(message: string) | Authenticated(user: string)

  /**
   * `verifyToken`: `next` runs exactly for `Authenticated`. `verify` stands
   * for `jwt.verify`, giving the token's user id or failing.
   */
  function VerifyToken(header: Option<string>, verify: string -> Option<string>): (r: AuthResult)
    ensures r.Authenticated? <==>
      exists t :: header == Some("Bearer " + t) && ' ' !in t && verify(t).Some?
    ensures forall t | header == Some("Bearer " + t) && ' ' !in t && verify(t).Some? ::
      r == Authenticated(verify(t).value)
    ensures header.None? || header.value == "" ==> r == Denied(NoTokenMessage)
    ensures header.Some? && header.value != "" && !(exists t :: header == Some("Bearer " + t) && ' ' !in t) ==>
      r == Denied(FormatMessage)
    ensures forall t | header == Some("Bearer " + t) && ' ' !in t && verify(t).None? :: r == Denied(InvalidMessage)
  {
    var p := ParseAuthorization(header);
    forall t ensures p == Token(t) <==> header == Some("Bearer " + t) && ' ' !in t {
      ParseAuthorizationToken(header, t);
    }
    match p
    case NoToken => Denied(NoTokenMessage)
    case BadFormat => Denied(FormatMessage)
    case Token(t) =>
      match verify(t)
      case None => Denied(InvalidMessage)
      case Some(id) => Authenticated(id)
  }

  /* ------------------------------------------------ POST /api/auth/register */

  predicate EmailTaken(m: map<string, Account>, email: string) {
    exists id | id in m :: m[id].email == email
  }

  /** The `email TEXT UNIQUE` constraint of `balances`. */
  ghost predicate UniqueEmails(m: map<string, Account>) {
    forall a, b | a in m && b in m && a != b :: m[a].email != m[b].email
  }

  datatype RegisterReply = Registered(id: string) | MissingField | AlreadyExists | IdTaken

  datatype RegisterStep = RegisterStep(reply: RegisterReply, post: State)

  /**
   * POST /api/auth/register. `hashed` is bcrypt's hash of `password`;
   * `newId` is the generated `'user_' + Date.now()`.
   */
  function Register(s: State, email: string, password: string, username: string,
                    hashed: string, newId: string): (r: RegisterStep)
    ensures r.post.wagers == s.wagers && r.post.friends == s.friends
    ensures r.reply == MissingField <==> email == "" || password == "" || username == ""
    ensures r.reply == AlreadyExists <==>
      email != "" && password != "" && username != "" && EmailTaken(s.balances, email)
    ensures r.reply == IdTaken ==> newId in s.balances
    ensures !r.reply.Registered? ==> r.post == s
    ensures r.reply.Registered? ==>
      && r.reply.id == newId && newId !in s.balances && !EmailTaken(s.balances, email)
      && r.post.balances == s.balances[newId := Account(1000, email, username, "", hashed)]
  {
    if email == "" || password == "" || username == "" then RegisterStep(MissingField, s)
    else if EmailTaken(s.balances, email) then RegisterStep(AlreadyExists, s)
    else if newId in s.balances then RegisterStep(IdTaken, s)
    else RegisterStep(Registered(newId), s.(balances := s.balances[newId := Account(1000, email, username, "", hashed)]))
  }

  /** The handler run against the shared `Db`: the checks of `Register` in the same order, then its writes in place. */
  method RegisterIn(db: Db, email: string, password: string, username: string,
                    hashed: string, newId: string) returns (reply: RegisterReply)
    modifies db
    ensures RegisterStep(reply, db.Snapshot()) == Register(old(db.Snapshot()), email, password, username, hashed, newId)
  {
    if email == "" || password == "" || username == "" {
      return MissingField;
    }
    if EmailTaken(db.balances, email) {
      return AlreadyExists;
    }
    if newId in db.balances {
      return IdTaken;
    }
    db.balances := db.balances[newId := Account(1000, email, username, "", hashed)];
    reply := Registered(newId);
  }

  /** Registration keeps emails unique and adds exactly one account. */
  lemma RegisterKeepsEmailsUnique(s: State, email: string, password: string, username: string,
                                  hashed: string, newId: string)
    requires UniqueEmails(s.balances)
    ensures var r := Register(s, email, password, username, hashed, newId);
      UniqueEmails(r.post.balances)
      && |r.post.balances| == if r.reply.Registered? then |s.balances| + 1 else |s.balances|
  {
  }

  /* --------------------------------------------------- POST /api/auth/login */

  datatype LoginReply = LoggedIn(id: string) | MissingCredentials | InvalidCredentials

  /**
   * POST /api/auth/login. `matches(password, hash)` stands for
   * `bcrypt.compare`; the token `jwt.sign` would add is left out. The
   * `email TEXT UNIQUE` constraint makes the row found the only one with
   * that email.
   */
  function Login(s: State, email: string, password: string, matches: (string, string) -> bool): (r: LoginReply)
    requires UniqueEmails(s.balances)
    ensures r == MissingCredentials <==> email == "" || password == ""
    ensures email != "" && password != "" && !EmailTaken(s.balances, email) ==> r == InvalidCredentials
    ensures r.LoggedIn? ==>
      r.id in s.balances && s.balances[r.id].email == email && matches(password, s.balances[r.id].password)
    ensures email != "" && password != "" ==>
      forall id | id in s.balances && s.balances[id].email == email ::
      r == if matches(password, s.balances[id].password) then LoggedIn(id) else InvalidCredentials
  {
    if email == "" || password == "" then MissingCredentials
    else if !EmailTaken(s.balances, email) then InvalidCredentials
    else
      var id :| id in s.balances && s.balances[id].email == email;
      if matches(password, s.balances[id].password) then LoggedIn(id) else InvalidCredentials
  }
}
