/** The sign-in form (src/pages/LoginPage.tsx): the checks `handleSubmit`
    makes before it calls the session store's `login`, and what it does
    with their outcome. */
module LoginPage {
  import opened Seqs
  import AuthStore
  import ToastContainer

  /** A character of the regular-expression class `\s`: the ASCII blanks and
      the Unicode space separators, line and paragraph separators and the
      byte-order mark. */
  predicate IsWhitespace(c: char) {
    var n := c as int;
    || n == 0x20 || (0x09 <= n <= 0x0D) || n == 0xA0 || n == 0x1680
    || (0x2000 <= n <= 0x200A) || n == 0x2028 || n == 0x2029 || n == 0x202F
    || n == 0x205F || n == 0x3000 || n == 0xFEFF
  }

  /** A character of the class `[^\s@]`. */
  predicate EmailChar(c: char) {
    !IsWhitespace(c) && c != '@'
  }

  /** A non-empty run of `[^\s@]`. */
  predicate EmailRun(s: string) {
    |s| > 0 && forall k :: 0 <= k < |s| ==> EmailChar(s[k])
  }

  /** `/^[^\s@]+@[^\s@]+\.[^\s@]+$/`: a run, an '@', a run, a '.', a run. */
  ghost predicate MatchesPattern(s: string): (b: bool)
    ensures b ==> |s| >= 5
  {
    exists i, j :: 0 <= i < j < |s| && s[i] == '@' && s[j] == '.'
      && EmailRun(s[..i]) && EmailRun(s[i + 1..j]) && EmailRun(s[j + 1..])
  }

  predicate IsAt(c: char) {
    c == '@'
  }

  predicate NoWhitespace(s: string) {
    forall k :: 0 <= k < |s| ==> !IsWhitespace(s[k])
  }

  /** The same test read as conditions on the address: no blanks, a non-empty
      part before the first '@', no other '@', and a '.' in the domain with at
      least one character on either side of it. */
  predicate ValidEmail(s: string): (b: bool)
    ensures b ==> |s| >= 5 && s[0] != '@' && s[|s| - 1] != '@'
  {
    && NoWhitespace(s)
    && match FindIndex(IsAt, s)
       case None => false
       case Some(i) =>
         var domain := s[i + 1..];
         i > 0 && '@' !in domain && |domain| >= 3 && '.' in domain[1..|domain| - 1]
  }

  lemma ValidEmailMatches(s: string)
    requires ValidEmail(s)
    ensures MatchesPattern(s)
  {
    var i := FindIndex(IsAt, s).value;
    var domain := s[i + 1..];
    var inner := domain[1..|domain| - 1];
    var k :| 0 <= k < |inner| && inner[k] == '.';
    var j := i + 2 + k;
    assert s[j] == '.';
    forall n | 0 <= n < |s| && n != i ensures EmailChar(s[n]) {
      if n > i {
        assert s[n] == domain[n - i - 1];
      }
    }
    assert EmailRun(s[..i]) && EmailRun(s[i + 1..j]) && EmailRun(s[j + 1..]);
  }

  /** Outside the '@', a matching address consists of `[^\s@]` characters. */
  lemma PatternChars(s: string, i: nat, j: nat)
    requires i < j < |s| && s[j] == '.'
    requires EmailRun(s[..i]) && EmailRun(s[i + 1..j]) && EmailRun(s[j + 1..])
    ensures forall n :: 0 <= n < |s| && n != i ==> EmailChar(s[n])
  {
    forall n | 0 <= n < |s| && n != i ensures EmailChar(s[n]) {
      if n < i {
        assert s[n] == s[..i][n];
      } else if n < j {
        assert s[n] == s[i + 1..j][n - i - 1];
      } else if n > j {
        assert s[n] == s[j + 1..][n - j - 1];
      }
    }
  }

  /** The executable test holds of an address the pattern matches with its
      '@' at `i` and its '.' at `j`. */
  lemma WitnessValid(s: string, i: nat, j: nat)
    requires i < j < |s| && s[i] == '@' && s[j] == '.'
    requires EmailRun(s[..i]) && EmailRun(s[i + 1..j]) && EmailRun(s[j + 1..])
    ensures ValidEmail(s)
  {
    PatternChars(s, i, j);
    assert NoWhitespace(s);
    assert FindIndex(IsAt, s) == Some(i);
    var domain := s[i + 1..];
    assert '@' !in domain by {
      assert forall n :: 0 <= n < |domain| ==> domain[n] == s[i + 1 + n];
    }
    assert domain[1..|domain| - 1][j - i - 2] == '.';
  }

  lemma MatchesValidEmail(s: string)
    requires MatchesPattern(s)
    ensures ValidEmail(s)
  {
    var i, j :| 0 <= i < j < |s| && s[i] == '@' && s[j] == '.'
      && EmailRun(s[..i]) && EmailRun(s[i + 1..j]) && EmailRun(s[j + 1..]);
    WitnessValid(s, i, j);
  }

  /** The executable test accepts exactly the addresses the pattern matches. */
  lemma ValidEmailIsPattern(s: string)
    ensures ValidEmail(s) <==> MatchesPattern(s)
  {
    if ValidEmail(s) {
      ValidEmailMatches(s);
    }
    if MatchesPattern(s) {
      MatchesValidEmail(s);
    }
  }

  /** What a matching address consists of: no blanks, exactly one '@', with
      something before it, and a '.' after it with at least one character
      between them and at least one after the dot. */
  lemma PatternShape(s: string)
    requires MatchesPattern(s)
    ensures NoWhitespace(s)
    ensures exists i, j :: 0 < i && i + 1 < j < |s| - 1 && s[i] == '@' && s[j] == '.'
              && (forall k :: 0 <= k < |s| && s[k] == '@' ==> k == i)
  {
    var i, j :| 0 <= i < j < |s| && s[i] == '@' && s[j] == '.'
      && EmailRun(s[..i]) && EmailRun(s[i + 1..j]) && EmailRun(s[j + 1..]);
    PatternChars(s, i, j);
    assert NoWhitespace(s);
    assert forall k :: 0 <= k < |s| && s[k] == '@' ==> k == i;
  }

  const FillInAllFields := "Please fill in all fields"
  const InvalidEmail := "Please enter a valid email address"

  /** The message `handleSubmit` throws before calling `login`, if any: the
      emptiness check comes first, then the address pattern. */
  function Validate(email: string, password: string): (r: Option<string>)
    ensures r == Some(FillInAllFields) <==> email == [] || password == []
    ensures r == Some(InvalidEmail) <==> email != [] && password != [] && !MatchesPattern(email)
    ensures r == None <==> email != [] && password != [] && MatchesPattern(email)
  {
    ValidEmailIsPattern(email);
    if email == [] || password == [] then Some(FillInAllFields)
    else if !ValidEmail(email) then Some(InvalidEmail)
    else None
  }

  /** A blank field is reported even when the address is malformed too. */
  lemma EmptinessCheckedFirst(password: string)
    ensures Validate("", password) == Some(FillInAllFields)
    ensures Validate("not an address", "") == Some(FillInAllFields)
  {
  }

  lemma PlainAddressIsValid()
    ensures ValidEmail("jane@x.com")
  {
    var s := "jane@x.com";
    assert s[..4] == "jane" && s[5..6] == "x" && s[7..] == "com";
    assert EmailRun("jane") && EmailRun("x") && EmailRun("com");
    WitnessValid(s, 4, 6);
  }

  /** A well-formed address passes. */
  lemma AcceptsPlainAddress()
    ensures Validate("jane@x.com", "secret") == None
  {
    PlainAddressIsValid();
  }

  /** A domain without a '.' is refused. */
  lemma RefusesDomainWithoutDot()
    ensures Validate("jane@xcom", "secret") == Some(InvalidEmail)
  {
    assert IsAt("jane@xcom"[4]);
    assert FindIndex(IsAt, "jane@xcom") == Some(4);
    assert "jane@xcom"[5..][1..3] == "co";
    assert !ValidEmail("jane@xcom");
  }

  /** A blank inside the address is refused. */
  lemma RefusesBlank()
    ensures Validate("ja ne@x.com", "secret") == Some(InvalidEmail)
  {
    assert IsWhitespace("ja ne@x.com"[2]);
    assert !ValidEmail("ja ne@x.com");
  }

  /** The form's own state and the page it has navigated to. */
  class LoginForm {
    var email: string
    var password: string
    var error: string
    var navigatedTo: Option<string>

    constructor ()
      ensures email == "" && password == "" && error == "" && navigatedTo == None
    {
      email, password, error, navigatedTo := "", "", "", None;
    }

    /** `handleSubmit`: the error is cleared; a failed check shows its
        message in the form and in an error toast and leaves the session
        alone; otherwise the user is signed in, welcomed by a success toast
        and sent to the dashboard. `createdAt` is the current time `login`
        stamps on the user. */
    method HandleSubmit(auth: AuthStore.AuthState, toasts: ToastContainer.ToastCenter, createdAt: string)
      requires toasts.Valid()
      modifies this, auth, toasts
      ensures email == old(email) && password == old(password) && toasts.Valid()
      ensures toasts.registered == old(toasts.registered)
      ensures var v := Validate(email, password);
        v.Some? ==>
          && error == v.value && navigatedTo == old(navigatedTo)
          && auth.State() == old(auth.State())
          && toasts.toasts == (if old(toasts.registered)
                               then old(toasts.toasts) + [ToastContainer.ToastData(ToastContainer.ToastIdOf(toasts.toastId),
                                                            ToastContainer.Error, "Login failed", v, None)]
                               else old(toasts.toasts))
      ensures Validate(email, password).None? ==>
          && error == "" && navigatedTo == Some("/dashboard")
          && auth.State() == AuthStore.AfterLogin(old(auth.State()), email, createdAt)
          && toasts.toasts == (if old(toasts.registered)
                               then old(toasts.toasts) + [ToastContainer.ToastData(ToastContainer.ToastIdOf(toasts.toastId),
                                                            ToastContainer.Success, "Welcome back!",
                                                            Some("You have successfully logged in."), None)]
                               else old(toasts.toasts))
    {
      error := "";
      var failure := Validate(email, password);
      if failure.Some? {
        error := failure.value;
        toasts.ToastError("Login failed", failure, None);
        return;
      }
      auth.Login(email, password, createdAt);
      toasts.ToastSuccess("Welcome back!", Some("You have successfully logged in."), None);
      navigatedTo := Some("/dashboard");
    }
  }
}
