/**
 * The sign-up page: frontend/src/pages/SignupPage.jsx. Field validation
 * follows react-hook-form's order (required, then minimum length, then
 * pattern, first failure reported); the password pattern is a regular
 * expression with four look-aheads.
 */
module SignupPage {
  import opened Wrappers
  import opened Text
  import opened Mongo
  import opened Http
  import opened UserModel
  import opened Database
  import opened Session
  import opened AuthController
  import opened ApiResponse

  /** The four character classes the look-aheads ask for. */
  datatype CharClass = Lower | Upper | Digit | Special

  /** `[@#$!%*?&]`. */
  predicate IsSpecial(c: char) {
    c == '@' || c == '#' || c == '$' || c == '!' || c == '%' || c == '*' || c == '?' || c == '&'
  }

  predicate InClass(k: CharClass, c: char) {
    match k
    case Lower => IsAsciiLower(c)
    case Upper => IsAsciiUpper(c)
    case Digit => IsAsciiDigit(c)
    case Special => IsSpecial(c)
  }

  /** `[A-Za-z\d@#$!%*?&]`. */
  predicate PasswordChar(c: char) {
    IsAsciiLower(c) || IsAsciiUpper(c) || IsAsciiDigit(c) || IsSpecial(c)
  }

  /** `(?=.*[k])` at the start: a character of the class, with no line terminator before it. */
  predicate LookaheadFinds(pw: string, k: CharClass) {
    exists i :: 0 <= i < |pw| && InClass(k, pw[i]) && forall j :: 0 <= j < i ==> !IsLineTerminator(pw[j])
  }

  /** The whole pattern, anchored at both ends: four look-aheads, then eight or more allowed characters. */
  predicate PasswordPattern(pw: string) {
    && LookaheadFinds(pw, Lower) && LookaheadFinds(pw, Upper)
    && LookaheadFinds(pw, Digit) && LookaheadFinds(pw, Special)
    && |pw| >= 8
    && forall i :: 0 <= i < |pw| ==> PasswordChar(pw[i])
  }

  /** Whether some character of the password is in the class. */
  predicate Contains(pw: string, k: CharClass) {
    exists i :: 0 <= i < |pw| && InClass(k, pw[i])
  }

  /**
   * The password policy in plain terms: at least eight characters, only
   * letters, digits and the eight specials, and at least one of each class.
   */
  predicate PasswordPolicy(pw: string) {
    && |pw| >= 8
    && (forall i :: 0 <= i < |pw| ==> PasswordChar(pw[i]))
    && Contains(pw, Lower) && Contains(pw, Upper) && Contains(pw, Digit) && Contains(pw, Special)
  }

  /** The pattern accepts exactly the passwords the policy allows. */
  lemma PatternIsPolicy(pw: string)
    ensures PasswordPattern(pw) <==> PasswordPolicy(pw)
  {
    if PasswordPolicy(pw) {
      forall k | Contains(pw, k)
        ensures LookaheadFinds(pw, k)
      {
        var i :| 0 <= i < |pw| && InClass(k, pw[i]);
        assert forall j :: 0 <= j < i ==> PasswordChar(pw[j]);
      }
    }
  }

  const UsernameRequired := "Username is required"
  const UsernameTooShort := "At least 3 characters"
  const PasswordRequired := "Password is required"
  const PasswordTooShort := "Minimum 8 characters"
  const PasswordTooWeak := "Must include uppercase, lowercase, number, and special char"

  /** The username's first failing rule, if any. */
  function UsernameError(u: string): (e: Option<string>)
    ensures e.None? <==> JsLength(u) >= 3
    ensures u == "" ==> e == Some(UsernameRequired)
  {
    if u == "" then Some(UsernameRequired)
    else if JsLength(u) < 3 then Some(UsernameTooShort)
    else None
  }

  /** The password's first failing rule, if any: it passes exactly when the policy allows it. */
  function PasswordError(pw: string): (e: Option<string>)
    ensures e.None? <==> PasswordPolicy(pw)
    ensures pw == "" ==> e == Some(PasswordRequired)
    ensures pw != "" && JsLength(pw) < 8 ==> e == Some(PasswordTooShort)
  {
    PatternIsPolicy(pw);
    if pw == "" then Some(PasswordRequired)
    else if JsLength(pw) < 8 then Some(PasswordTooShort)
    else if !PasswordPattern(pw) then Some(PasswordTooWeak)
    else None
  }

  /** `getPasswordStrength()`: the class of the strength line. */
  function StrengthClass(pw: string): (c: string)
    ensures pw == "" ==> c == ""
    ensures pw != "" && JsLength(pw) < 8 ==> c == "text-red-400"
    ensures JsLength(pw) >= 12 ==> c == "text-green-400 font-bold"
    ensures 10 <= JsLength(pw) < 12 ==> c == "text-yellow-400"
    ensures 8 <= JsLength(pw) < 10 ==> c == "text-red-400"
  {
    if pw == "" then ""
    else if JsLength(pw) < 8 then "text-red-400"
    else if JsLength(pw) >= 12 then "text-green-400 font-bold"
    else if JsLength(pw) >= 10 then "text-yellow-400"
    else "text-red-400"
  }

  /** The word on the strength line. */
  function StrengthLabel(pw: string): (w: string)
    ensures w == "Weak" <==> JsLength(pw) < 8
    ensures w == "Strong" <==> JsLength(pw) >= 12
    ensures w == "Good" <==> 8 <= JsLength(pw) < 12
  {
    if JsLength(pw) < 8 then "Weak" else if JsLength(pw) >= 12 then "Strong" else "Good"
  }

  /** Eight or nine characters read "Good" but are shown in the colour of a weak password. */
  lemma GoodShownInRed(pw: string)
    requires 8 <= JsLength(pw) < 10
    ensures StrengthLabel(pw) == "Good" && StrengthClass(pw) == "text-red-400"
  {
  }

  /** The four hints under the password: length, an upper-case letter, a digit, a special. */
  datatype Hints = Hints(long: bool, upper: bool, digit: bool, special: bool)

  function HintsFor(pw: string): (h: Hints)
    ensures h.long <==> JsLength(pw) >= 8
    ensures h.upper <==> Contains(pw, Upper)
    ensures h.digit <==> Contains(pw, Digit)
    ensures h.special <==> Contains(pw, Special)
  {
    Hints(JsLength(pw) >= 8, Contains(pw, Upper), Contains(pw, Digit), Contains(pw, Special))
  }

  /** There is no hint for a lower-case letter: all four hints can be green on a password the form rejects. */
  lemma HintsMissLowercase()
    ensures HintsFor("ABCDEFG1!") == Hints(true, true, true, true)
    ensures PasswordError("ABCDEFG1!") == Some(PasswordTooWeak)
  {
    var pw := "ABCDEFG1!";
    assert InClass(Upper, pw[0]) && InClass(Digit, pw[7]) && InClass(Special, pw[8]);
    assert !Contains(pw, Lower);
    JsLengthOfBmp(pw);
  }

  /** The form's values, with the hidden `role` field. */
  datatype SignupForm = SignupForm(username: string, password: string, role: string)

  /** Whether the form is submitted at all. */
  predicate FormValid(f: SignupForm) {
    UsernameError(f.username).None? && PasswordError(f.password).None?
  }

  /** `const { role, ...payload } = data`: the role never leaves the page. */
  function Payload(f: SignupForm): (b: SignupBody)
    ensures b.username == f.username && b.password == f.password && b.role.None?
  {
    SignupBody(f.username, f.password, None)
  }

  /** Whatever the hidden field holds, the account the server builds from the page's payload is a Client. */
  lemma PagePayloadMakesClient(f: SignupForm, hash: string -> string)
    ensures NewUser(Payload(f), hash).role == Client
  {
  }

  /** A signed-in visitor is sent to /projects. */
  function OnUser(user: Option<SessionUser>): (navigate: Option<string>)
    ensures navigate.Some? <==> user.Some?
    ensures navigate.Some? ==> navigate.value == "/projects"
  {
    if user.Some? then Some("/projects") else None
  }

  /**
   * `onSubmit` once the call settles: any reply raises the response toast
   * and goes to /login (after a delay); a thrown error raises the error
   * toast and stays.
   */
  function AfterSubmit(call: Call<()>): (r: (Toast, Option<string>))
    ensures call.Responded? ==>
      r == (HandleApiResponse(call.response, true, "Account created! Redirecting...").1, Some("/login"))
    ensures call.Threw? ==> r == (HandleApiError(call.error, "Signup failed"), None)
  {
    match call
    case Responded(res) => (HandleApiResponse(res, true, "Account created! Redirecting...").1, Some("/login"))
    case Threw(e) => (HandleApiError(e, "Signup failed"), None)
  }

  /**
   * A valid form sent to the sign-up handler: it succeeds exactly when the
   * name is free and the hash is non-empty, and then stores a Client under
   * the typed name.
   */
  method SignupFromPage(db: Db, f: SignupForm, hash: string -> string) returns (r: Reply<ObjectId>)
    requires db.Valid() && FormValid(f)
    modifies db
    ensures db.Valid()
    ensures r.Ok? <==> !UsernameTaken(old(db.users), f.username) && hash(f.password) != ""
    ensures r.Ok? ==> r.value in db.users && db.users[r.value].role == Client &&
                      db.users[r.value].username == f.username
  {
    r := CreateUser(db, Payload(f), hash);
  }
}
