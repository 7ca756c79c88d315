/** InitialUserValidator.Validate: the checks a configured initial user must
    pass before it is seeded. The regular expressions are written as
    character predicates; a null string is `None`; Enum.TryParse over the
    UserRole enum is a parameter. */
module Validations {

  import opened Envelopes
  import opened Text

  /** IInitialUser: every property may be null. */
  datatype InitialUser = InitialUser(
    username: Option<string>,
    email: Option<string>,
    fullName: Option<string>,
    password: Option<string>,
    role: Option<string>)

  /** The properties whose null value makes Validate throw instead of returning. */
  datatype NullField = EmailField | PasswordField

  /** Validate returns a verdict or throws. Regex.IsMatch throws
      ArgumentNullException on a null input, and reading the Length of a null
      password throws NullReferenceException. */
  datatype Verdict = Returns(valid: bool) | Throws(field: NullField)

  /** The regex class `[^@\s]`. */
  predicate IsEmailChar(c: char) {
    c != '@' && !IsWhiteSpace(c)
  }

  /** `[^@\s]+` matching `s[lo..hi]`: a non-empty run of such characters. */
  predicate IsEmailRun(s: string, lo: int, hi: int)
    requires 0 <= lo <= hi <= |s|
  {
    lo < hi && forall k :: lo <= k < hi ==> IsEmailChar(s[k])
  }

  /** The pattern `[^@\s]+@[^@\s]+\.[^@\s]+` matches all of `s`: some '@' at
      `i` and some '.' at `j` split it into three runs. */
  predicate MatchesEmailBody(s: string) {
    exists i, j :: 0 < i && i + 1 < j && j + 1 < |s| && s[i] == '@' && s[j] == '.'
      && IsEmailRun(s, 0, i) && IsEmailRun(s, i + 1, j) && IsEmailRun(s, j + 1, |s|)
  }

  /** `^…$`: in .NET, `$` matches at the end and also just before a final
      newline, so a body followed by one '\n' matches too. */
  predicate MatchesEmailPattern(s: string) {
    || MatchesEmailBody(s)
    || (|s| > 0 && s[|s| - 1] == '\n' && MatchesEmailBody(s[..|s| - 1]))
  }

  /** `s` has no white space. */
  predicate NoWhiteSpace(s: string) {
    forall k :: 0 <= k < |s| ==> !IsWhiteSpace(s[k])
  }

  /** The only '@' of `s` is at `i`. */
  predicate OnlyAtSignAt(s: string, i: int) {
    0 <= i < |s| && s[i] == '@' && forall k :: 0 <= k < |s| && s[k] == '@' ==> k == i
  }

  /** Some '.' of `s` has at least one character between it and `i`, and at
      least one after it. */
  predicate DotAfter(s: string, i: int)
    requires 0 <= i
  {
    exists j :: i + 1 < j < |s| - 1 && s[j] == '.'
  }

  /** The shape the pattern describes, stated directly: no white space,
      exactly one '@', not first, and after it a '.' with at least one
      character on each side. */
  predicate HasEmailShape(s: string) {
    NoWhiteSpace(s) && exists i :: 0 < i < |s| && OnlyAtSignAt(s, i) && DotAfter(s, i)
  }

  lemma MatchImpliesShape(s: string)
    requires MatchesEmailBody(s)
    ensures HasEmailShape(s)
  {
    var i, j :| 0 < i && i + 1 < j && j + 1 < |s| && s[i] == '@' && s[j] == '.'
      && IsEmailRun(s, 0, i) && IsEmailRun(s, i + 1, j) && IsEmailRun(s, j + 1, |s|);
    assert OnlyAtSignAt(s, i) && DotAfter(s, i);
  }

  lemma ShapeImpliesMatch(s: string)
    requires HasEmailShape(s)
    ensures MatchesEmailBody(s)
  {
    var i :| 0 < i < |s| && OnlyAtSignAt(s, i) && DotAfter(s, i);
    var j :| i + 1 < j < |s| - 1 && s[j] == '.';
    assert IsEmailRun(s, 0, i) && IsEmailRun(s, i + 1, j) && IsEmailRun(s, j + 1, |s|);
  }

  /** The pattern matches exactly the strings of that shape. */
  lemma EmailBodyIffShape(s: string)
    ensures MatchesEmailBody(s) <==> HasEmailShape(s)
  {
    if MatchesEmailBody(s) {
      MatchImpliesShape(s);
    }
    if HasEmailShape(s) {
      ShapeImpliesMatch(s);
    }
  }

  /** What the pattern accepts: a well-shaped address, optionally followed
      by a single newline. */
  lemma EmailPatternAccepts(s: string)
    ensures MatchesEmailPattern(s) <==>
      HasEmailShape(s) || (|s| > 0 && s[|s| - 1] == '\n' && HasEmailShape(s[..|s| - 1]))
  {
    EmailBodyIffShape(s);
    if |s| > 0 {
      EmailBodyIffShape(s[..|s| - 1]);
    }
  }

  /** Addresses the pattern accepts: a plain one, one with a dotted domain,
      and one followed by a newline. */
  lemma EmailPatternAcceptsExamples()
    ensures MatchesEmailPattern("hola@domain.com")
    ensures MatchesEmailPattern("a@b.c.d")
    ensures MatchesEmailPattern("a@b.c\n")
  {
    var s := "hola@domain.com";
    assert s[4] == '@' && s[11] == '.' && IsEmailRun(s, 0, 4) && IsEmailRun(s, 5, 11) && IsEmailRun(s, 12, |s|);
    s := "a@b.c.d";
    assert s[1] == '@' && s[3] == '.' && IsEmailRun(s, 0, 1) && IsEmailRun(s, 2, 3) && IsEmailRun(s, 4, |s|);
    s := "a@b.c\n";
    assert s[..|s| - 1] == "a@b.c";
    s := "a@b.c";
    assert s[1] == '@' && s[3] == '.' && IsEmailRun(s, 0, 1) && IsEmailRun(s, 2, 3) && IsEmailRun(s, 4, |s|);
  }

  /** Addresses the pattern refuses: no dotted domain, an empty local part,
      an empty label before the dot, two '@'s, and white space. */
  lemma EmailPatternRefusesExamples()
    ensures !MatchesEmailPattern("a@b")
    ensures !MatchesEmailPattern("@b.c")
    ensures !MatchesEmailPattern("a@.c")
    ensures !MatchesEmailPattern("a@b@c.d")
    ensures !MatchesEmailPattern("a b@c.d")
  {
    EmailPatternAccepts("a@b");
    EmailPatternAccepts("@b.c");
    EmailPatternAccepts("a@.c");
    EmailPatternAccepts("a@b@c.d");
    forall i | 0 < i < 7 ensures !OnlyAtSignAt("a@b@c.d", i) {
      assert "a@b@c.d"[1] == '@' && "a@b@c.d"[3] == '@';
    }
    EmailPatternAccepts("a b@c.d");
    assert !NoWhiteSpace("a b@c.d") by {
      assert IsWhiteSpace("a b@c.d"[1]);
    }
  }

  /** The password rules: at least 8 UTF-16 units, an ASCII capital, an
      ASCII small letter and a decimal digit (each class searched anywhere). */
  predicate HasUpper(p: string) {
    exists k :: 0 <= k < |p| && 'A' <= p[k] <= 'Z'
  }

  predicate HasLower(p: string) {
    exists k :: 0 <= k < |p| && 'a' <= p[k] <= 'z'
  }

  predicate HasDigit(p: string) {
    exists k :: 0 <= k < |p| && '0' <= p[k] <= '9'
  }

  predicate IsStrongPassword(p: string) {
    Utf16Length(p) >= 8 && HasUpper(p) && HasLower(p) && HasDigit(p)
  }

  /** InitialUserValidator.Validate, check by check in the source's order. */
  function Validate(user: InitialUser, parsesAsUserRole: string -> bool): (r: Verdict)
    ensures IsNullOrWhiteSpace(user.username) ==> r == Returns(false)
    ensures r.Throws? <==>
      !IsNullOrWhiteSpace(user.username) &&
      (user.email.None? ||
       (MatchesEmailPattern(user.email.value) && !IsNullOrWhiteSpace(user.fullName) && user.password.None?))
    ensures r.Throws? ==> (r.field == EmailField <==> user.email.None?)
  {
    if IsNullOrWhiteSpace(user.username) then Returns(false)
    else if user.email.None? then Throws(EmailField)
    else if !MatchesEmailPattern(user.email.value) then Returns(false)
    else if IsNullOrWhiteSpace(user.fullName) then Returns(false)
    else if user.password.None? then Throws(PasswordField)
    else if !IsStrongPassword(user.password.value) then Returns(false)
    else if IsNullOrWhiteSpace(user.role) then Returns(false)
    else if !parsesAsUserRole(Trim(user.role.value)) then Returns(false)
    else Returns(true)
  }

  /** Validate accepts exactly the users that pass every check, each check
      stated on its own terms rather than as a regular expression. */
  lemma ValidateIsConjunction(user: InitialUser, parsesAsUserRole: string -> bool)
    ensures Validate(user, parsesAsUserRole) == Returns(true) <==>
      && !IsNullOrWhiteSpace(user.username)
      && user.email.Some?
      && (var e := user.email.value;
          HasEmailShape(e) || (|e| > 0 && e[|e| - 1] == '\n' && HasEmailShape(e[..|e| - 1])))
      && !IsNullOrWhiteSpace(user.fullName)
      && user.password.Some? && IsStrongPassword(user.password.value)
      && !IsNullOrWhiteSpace(user.role)
      && parsesAsUserRole(Trim(user.role.value))
  {
    if user.email.Some? {
      EmailPatternAccepts(user.email.value);
    }
  }

  /** A password shorter than 8 characters, or lacking one of the three
      character classes, is refused whatever the other fields hold. */
  lemma WeakPasswordNeverAccepted(user: InitialUser, parsesAsUserRole: string -> bool)
    requires user.password.Some?
    requires var p := user.password.value; Utf16Length(p) < 8 || !HasUpper(p) || !HasLower(p) || !HasDigit(p)
    ensures Validate(user, parsesAsUserRole) != Returns(true)
  {
  }

  /** A blank role, or one whose trimmed text is not a UserRole, is refused. */
  lemma UnknownRoleNeverAccepted(user: InitialUser, parsesAsUserRole: string -> bool)
    requires IsNullOrWhiteSpace(user.role) || !parsesAsUserRole(Trim(user.role.value))
    ensures Validate(user, parsesAsUserRole) != Returns(true)
  {
  }

  /** An address with white space, no '@', two '@'s or no dotted domain is
      refused before the later fields are looked at. */
  lemma MalformedEmailRefused(user: InitialUser, parsesAsUserRole: string -> bool)
    requires !IsNullOrWhiteSpace(user.username) && user.email.Some?
    requires var e := user.email.value; !HasEmailShape(e) && !(|e| > 0 && e[|e| - 1] == '\n' && HasEmailShape(e[..|e| - 1]))
    ensures Validate(user, parsesAsUserRole) == Returns(false)
  {
    EmailPatternAccepts(user.email.value);
  }
}
