/** The password-strength validator of the `Password` schema type:
    `^(?=.*\d)(?=.*[a-z])(?=.*[A-Z])(?=.*[a-zA-Z]).{8,}$` under Python's
    `re.match`, where `.` matches anything but a newline and `$` matches at the
    end of the string or just before a newline that ends it. */
module CustomTypes {
  import opened Common

  predicate IsDigit(c: char) { '0' <= c <= '9' }
  predicate IsLower(c: char) { 'a' <= c <= 'z' }
  predicate IsUpper(c: char) { 'A' <= c <= 'Z' }
  predicate IsLetter(c: char) { IsLower(c) || IsUpper(c) }

  /** `(?=.*X)` at the start: some character of class X is preceded only by
      non-newline characters. */
  predicate LookaheadFinds(s: string, charClass: char -> bool) {
    exists k :: 0 <= k < |s| && charClass(s[k]) && forall j :: 0 <= j < k ==> s[j] != '\n'
  }

  /** `.{8,}$` at the start: at least eight non-newline characters, then the
      end of the string or a final newline. */
  predicate LineThenEnd(s: string) {
    exists n :: 8 <= n <= |s| && LineEndsAt(s, n)
  }

  /** The first `n` characters contain no newline and are followed by the end
      of the string or by a newline that ends it. */
  predicate LineEndsAt(s: string, n: nat)
    requires n <= |s|
  {
    && (forall j :: 0 <= j < n ==> s[j] != '\n')
    && (n == |s| || (n == |s| - 1 && s[n] == '\n'))
  }

  /** The whole pattern, one conjunct per regex piece. */
  predicate PatternMatches(s: string) {
    && LookaheadFinds(s, IsDigit)
    && LookaheadFinds(s, IsLower)
    && LookaheadFinds(s, IsUpper)
    && LookaheadFinds(s, IsLetter)
    && LineThenEnd(s)
  }

  /** The password without one trailing newline, if it has one. */
  function Body(s: string): string {
    if |s| > 0 && s[|s| - 1] == '\n' then s[..|s| - 1] else s
  }

  predicate Contains(s: string, charClass: char -> bool) {
    exists k :: 0 <= k < |s| && charClass(s[k])
  }

  /** The rule in plain words: apart from one optional trailing newline the
      password is a single line of at least eight characters holding a digit,
      a lowercase and an uppercase ASCII letter. */
  predicate StrongPassword(s: string) {
    var b := Body(s);
    && |b| >= 8
    && (forall j :: 0 <= j < |b| ==> b[j] != '\n')
    && Contains(b, IsDigit) && Contains(b, IsLower) && Contains(b, IsUpper)
  }

  const PasswordErrorDetail: string :=
    "Password must contain at least one number and one uppercase"
    + "and lowercase letter, and at least 8 or more characters"

  /** `Password._validate`: the input itself when it matches, a ValueError otherwise. */
  function ValidatePassword(password: string): (r: Result<string>)
    ensures r.Ok? <==> StrongPassword(password)
    ensures r.Ok? ==> r.value == password
    ensures r.Err? ==> r.error == Invalid(PasswordErrorDetail)
  {
    PatternIsStrongPassword(password);
    if PatternMatches(password) then Ok(password) else Err(Invalid(PasswordErrorDetail))
  }

  /** A lookahead finds a class member in the string exactly when the body,
      once it is known to be one line that the string extends by at most a
      newline, contains one. */
  lemma LookaheadInBody(s: string, charClass: char -> bool)
    requires forall c :: charClass(c) ==> c != '\n'
    requires forall j :: 0 <= j < |Body(s)| ==> Body(s)[j] != '\n'
    ensures LookaheadFinds(s, charClass) <==> Contains(Body(s), charClass)
  {
    var b := Body(s);
    if LookaheadFinds(s, charClass) {
      var k :| 0 <= k < |s| && charClass(s[k]) && forall j :: 0 <= j < k ==> s[j] != '\n';
      if |b| < |s| {
        assert !charClass(s[|s| - 1]);
      }
      assert b[k] == s[k];
    }
    if Contains(b, charClass) {
      var k :| 0 <= k < |b| && charClass(b[k]);
      assert s[k] == b[k];
      forall j | 0 <= j < k ensures s[j] != '\n' { assert s[j] == b[j]; }
    }
  }

  /** The regex accepts exactly the strong passwords. */
  lemma {:induction false} PatternIsStrongPassword(s: string)
    ensures PatternMatches(s) <==> StrongPassword(s)
  {
    var b := Body(s);
    if LineThenEnd(s) {
      var n :| 8 <= n <= |s| && LineEndsAt(s, n);
      assert b == s[..n];
    }
    var line := |b| >= 8 && forall j :: 0 <= j < |b| ==> b[j] != '\n';
    if line {
      forall j | 0 <= j < |b| ensures s[j] != '\n' { assert s[j] == b[j]; }
      assert LineEndsAt(s, |b|);
      LookaheadInBody(s, IsDigit);
      LookaheadInBody(s, IsLower);
      LookaheadInBody(s, IsUpper);
      LookaheadInBody(s, IsLetter);
      if Contains(b, IsLower) {
        var k :| 0 <= k < |b| && IsLower(b[k]);
        assert IsLetter(b[k]);
        assert Contains(b, IsLetter);
      }
    }
  }

  /** The `[a-zA-Z]` lookahead adds nothing: the lowercase one implies it. */
  lemma LetterLookaheadRedundant(s: string)
    ensures PatternMatches(s) <==>
            LookaheadFinds(s, IsDigit) && LookaheadFinds(s, IsLower)
            && LookaheadFinds(s, IsUpper) && LineThenEnd(s)
  {
    if LookaheadFinds(s, IsLower) {
      var k :| 0 <= k < |s| && IsLower(s[k]) && forall j :: 0 <= j < k ==> s[j] != '\n';
      assert IsLetter(s[k]);
    }
  }

  /** Every accepted password has at least eight characters, a digit, a
      lowercase and an uppercase letter. */
  lemma AcceptedPasswordShape(s: string)
    requires ValidatePassword(s).Ok?
    ensures |s| >= 8
    ensures Contains(s, IsDigit) && Contains(s, IsLower) && Contains(s, IsUpper)
  {
    var b := Body(s);
    assert |b| <= |s|;
    forall charClass: char -> bool | Contains(b, charClass) ensures Contains(s, charClass) {
      var k :| 0 <= k < |b| && charClass(b[k]);
      assert s[k] == b[k];
    }
  }

  /** The examples of the route tests: "Pass" is refused, "Pass12345" accepted. */
  lemma PasswordExamples()
    ensures ValidatePassword("Pass").Err?
    ensures ValidatePassword("Pass12345") == Ok("Pass12345")
  {
    var good := "Pass12345";
    assert good[..|good|] == good;
    assert IsDigit(good[4]) && IsLower(good[1]) && IsUpper(good[0]);
    assert StrongPassword(good);
  }
}
