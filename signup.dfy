/**
 * The sign-up screen's input checks: `validateEmail` and the ordered guard
 * chain of `handleSignUp`, which either shows one alert or calls `register`.
 */
module SignUp {

  /** JavaScript's `\s` and the characters `String.prototype.trim` removes. */
  predicate IsSpace(c: char) {
    || c == '\t' || c == '\n' || c == '\U{B}' || c == '\U{C}' || c == '\r' || c == ' '
    || c == '\U{A0}' || c == '\U{1680}' || ('\U{2000}' <= c <= '\U{200A}')
    || c == '\U{2028}' || c == '\U{2029}' || c == '\U{202F}' || c == '\U{205F}'
    || c == '\U{3000}' || c == '\U{FEFF}'
  }

  predicate AllSpace(s: string) {
    forall k | 0 <= k < |s| :: IsSpace(s[k])
  }

  /* ----------------------------------------------------------------- trim */

  function TrimStart(s: string): string {
    if s != [] && IsSpace(s[0]) then TrimStart(s[1..]) else s
  }

  function TrimEnd(s: string): string {
    if s != [] && IsSpace(s[|s| - 1]) then TrimEnd(s[..|s| - 1]) else s
  }

  /** `s.trim()` */
  function Trim(s: string): string {
    TrimEnd(TrimStart(s))
  }

  lemma {:induction false} TrimStartEmpty(s: string)
    ensures TrimStart(s) == [] <==> AllSpace(s)
  {
    if s != [] && IsSpace(s[0]) {
      TrimStartEmpty(s[1..]);
      assert forall k | 1 <= k < |s| :: s[k] == s[1..][k - 1];
    }
  }

  lemma {:induction false} TrimEndEmpty(s: string)
    ensures TrimEnd(s) == [] <==> AllSpace(s)
  {
    if s != [] && IsSpace(s[|s| - 1]) {
      TrimEndEmpty(s[..|s| - 1]);
    }
  }

  /** `!s.trim()` holds exactly for strings of white space only (the empty string included). */
  lemma TrimEmpty(s: string)
    ensures Trim(s) == "" <==> AllSpace(s)
  {
    TrimStartEmpty(s);
    TrimEndEmpty(TrimStart(s));
    if !AllSpace(s) {
      TrimStartSuffix(s);
    }
  }

  /** TrimStart leaves a suffix of `s` that keeps every non-space character of it. */
  lemma {:induction false} TrimStartSuffix(s: string)
    requires !AllSpace(s)
    ensures !AllSpace(TrimStart(s))
  {
    if s != [] && IsSpace(s[0]) {
      var k :| 0 <= k < |s| && !IsSpace(s[k]);
      assert s[1..][k - 1] == s[k];
      TrimStartSuffix(s[1..]);
    }
  }

  /* -------------------------------------------------------- validateEmail */

  /** One or more characters of the class `[^\s@]`. */
  predicate Run(s: string) {
    |s| > 0 && forall k | 0 <= k < |s| :: s[k] != '@' && !IsSpace(s[k])
  }

  /**
   * `validateEmail`: the whole string matches /^[^\s@]+@[^\s@]+\.[^\s@]+$/,
   * i.e. it is three runs joined by an '@' at `a` and a '.' at `d`.
   */
  function ValidateEmail(s: string): (ok: bool)
    ensures ok ==> |s| >= 5 && '@' in s && '.' in s
  {
    exists a, d | 0 <= a < d < |s| ::
      s[a] == '@' && s[d] == '.' && Run(s[..a]) && Run(s[a + 1..d]) && Run(s[d + 1..])
  }

  /** The domain part has a '.' that is neither its first nor its last character. */
  predicate HasInnerDot(domain: string) {
    exists k | 0 < k < |domain| - 1 :: domain[k] == '.'
  }

  /**
   * What the pattern asks in plain terms: no white space, exactly one '@',
   * something before it, and an inner '.' after it.
   */
  predicate EmailRules(s: string) {
    && (forall k | 0 <= k < |s| :: !IsSpace(s[k]))
    && multiset(s)['@'] == 1
    && exists a | 0 <= a < |s| && s[a] == '@' :: a > 0 && HasInnerDot(s[a + 1..])
  }

  lemma AtCountOne(s: string, a: int)
    requires 0 <= a < |s| && s[a] == '@'
    requires forall k | 0 <= k < |s| && k != a :: s[k] != '@'
    ensures multiset(s)['@'] == 1
  {
    assert s == s[..a] + [s[a]] + s[a + 1..];
    assert '@' !in s[..a] && '@' !in s[a + 1..];
  }

  lemma AtCountTwo(s: string, i: int, j: int)
    requires 0 <= i < j < |s| && s[i] == '@' && s[j] == '@'
    ensures multiset(s)['@'] >= 2
  {
    assert s == s[..i] + [s[i]] + s[i + 1..j] + [s[j]] + s[j + 1..];
  }

  lemma RunSlice(s: string, i: int, j: int)
    requires 0 <= i < j <= |s|
    requires forall k | i <= k < j :: s[k] != '@' && !IsSpace(s[k])
    ensures Run(s[i..j])
  {
  }

  lemma MatchFollowsRules(s: string)
    requires ValidateEmail(s)
    ensures EmailRules(s)
  {
    var a, d :| 0 <= a < d < |s| && s[a] == '@' && s[d] == '.'
      && Run(s[..a]) && Run(s[a + 1..d]) && Run(s[d + 1..]);
    forall k | 0 <= k < |s| && k != a ensures s[k] != '@' && !IsSpace(s[k]) {
      if k < a {
        assert s[..a][k] == s[k];
      } else if a < k < d {
        assert s[a + 1..d][k - a - 1] == s[k];
      } else if d < k {
        assert s[d + 1..][k - d - 1] == s[k];
      }
    }
    AtCountOne(s, a);
    assert s[a + 1..][d - a - 1] == '.';
  }

  lemma RulesGiveMatch(s: string)
    requires EmailRules(s)
    ensures ValidateEmail(s)
  {
    var a :| 0 <= a < |s| && s[a] == '@' && a > 0 && HasInnerDot(s[a + 1..]);
    var k :| 0 < k < |s[a + 1..]| - 1 && s[a + 1..][k] == '.';
    var d := a + 1 + k;
    forall j | 0 <= j < |s| && j != a ensures s[j] != '@' {
      if s[j] == '@' {
        if j < a { AtCountTwo(s, j, a); } else { AtCountTwo(s, a, j); }
      }
    }
    assert s[d] == '.';
    RunSlice(s, 0, a);
    RunSlice(s, a + 1, d);
    RunSlice(s, d + 1, |s|);
    assert s[..a] == s[0..a] && s[d + 1..] == s[d + 1..|s|];
  }

  /** The regular expression accepts exactly the strings that follow the rules. */
  lemma ValidateEmailRules(s: string)
    ensures ValidateEmail(s) <==> EmailRules(s)
  {
    if ValidateEmail(s) {
      MatchFollowsRules(s);
    }
    if EmailRules(s) {
      RulesGiveMatch(s);
    }
  }

  /** An address the pattern accepts is never blank after trimming. */
  lemma ValidEmailNotBlank(s: string)
    ensures ValidateEmail(s) ==> Trim(s) != ""
  {
  }

  /* -------------------------------------------------------- handleSignUp */

  /** `password.length` counts UTF-16 code units. */
  function Utf16Length(s: string): nat {
    if s == [] then 0 else (if s[0] as int > 0xFFFF then 2 else 1) + Utf16Length(s[1..])
  }

  const UsernameAlert := "Please enter a username"
  const EmailAlert := "Please enter a valid email address"
  const PasswordAlert := "Password must be at least 6 characters"
  const MismatchAlert := "Passwords do not match"

  datatype SignUpResult = Alert(message: string) | CallRegister(username: string, email: string, password: string)

  /**
   * `handleSignUp`: the first failing check decides the alert; `register`
   * is called with the untrimmed inputs only when every check passes.
   */
  function HandleSignUp(username: string, email: string, password: string, confirm: string): (r: SignUpResult)
    ensures AllSpace(username) ==> r == Alert(UsernameAlert)
    ensures !AllSpace(username) && !ValidateEmail(email) ==> r == Alert(EmailAlert)
    ensures !AllSpace(username) && ValidateEmail(email) && (AllSpace(password) || Utf16Length(password) < 6)
      ==> r == Alert(PasswordAlert)
    ensures (!AllSpace(username) && ValidateEmail(email) && !AllSpace(password) && Utf16Length(password) >= 6
             && password != confirm) ==> r == Alert(MismatchAlert)
    ensures r.CallRegister? <==>
      !AllSpace(username) && ValidateEmail(email) && !AllSpace(password) && Utf16Length(password) >= 6
      && password == confirm
    ensures r.CallRegister? ==> r == CallRegister(username, email, password)
  {
    TrimEmpty(username);
    TrimEmpty(password);
    ValidEmailNotBlank(email);
    if Trim(username) == "" then Alert(UsernameAlert)
    else if Trim(email) == "" || !ValidateEmail(email) then Alert(EmailAlert)
    else if Trim(password) == "" || Utf16Length(password) < 6 then Alert(PasswordAlert)
    else if password != confirm then Alert(MismatchAlert)
    else CallRegister(username, email, password)
  }
}
