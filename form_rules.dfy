/**
 * Field rules as a form library applies them: `required` rejects an empty value; `minLength`
 * and `pattern` are only tested on a non-empty value. Each rule set gives the first failing
 * rule's message, or none when the field is valid. Also the e-mail pattern shared by the
 * login and registration forms.
 */
module FormRules {
  import opened Common

  /** What a page's submit handler did with the form it was given. */
  datatype SubmitOutcome<T> =
    | CustomerNotFound      // the page redirects to /404 before the form is shown
    | NoForm                // the page shows no form at all
    | Invalid               // a field rule failed; the handler is not called
    | Submitted(record: T)

  /** `required` plus `minLength: n` on a text field; the length is the JavaScript `length` in UTF-16 units. */
  function TextRules(value: string, requiredMessage: string, n: nat, minLengthMessage: string): (err: Option<string>)
    requires n >= 1
    ensures err == None <==> Utf16Length(value) >= n
    ensures value == "" ==> err == Some(requiredMessage)
    ensures value != "" && Utf16Length(value) < n ==> err == Some(minLengthMessage)
  {
    if value == "" then Some(requiredMessage)
    else if Utf16Length(value) < n then Some(minLengthMessage)
    else None
  }

  /** The password rules of both the login and the registration form. */
  function PasswordError(password: string): (err: Option<string>)
    ensures err == None <==> Utf16Length(password) >= 6
    ensures password == "" ==> err == Some("Password is required")
  {
    TextRules(password, "Password is required", 6, "Password must be at least 6 characters")
  }

  // ----- The pattern /^[A-Z0-9._%+-]+@[A-Z0-9.-]+\.[A-Z]{2,}$/i -----

  predicate IsLocalChar(c: char) {
    IsAsciiLetter(c) || IsAsciiDigit(c) || c == '.' || c == '_' || c == '%' || c == '+' || c == '-'
  }

  predicate IsDomainChar(c: char) {
    IsAsciiLetter(c) || IsAsciiDigit(c) || c == '.' || c == '-'
  }

  predicate AllLocal(s: string) { forall i :: 0 <= i < |s| ==> IsLocalChar(s[i]) }
  predicate AllDomain(s: string) { forall i :: 0 <= i < |s| ==> IsDomainChar(s[i]) }
  predicate AllLetters(s: string) { forall i :: 0 <= i < |s| ==> IsAsciiLetter(s[i]) }

  /**
   * The pattern's language stated as a split: a non-empty local part, `@` at index `at`, a
   * non-empty domain part, `.` at index `dot`, and at least two letters up to the end.
   */
  ghost predicate SplitAt(s: string, at: int, dot: int) {
    0 < at && at + 1 < dot && dot + 2 < |s|
    && s[at] == '@' && s[dot] == '.'
    && AllLocal(s[..at]) && AllDomain(s[at + 1..dot]) && AllLetters(s[dot + 1..])
  }

  ghost predicate EmailPattern(s: string) {
    exists at, dot :: SplitAt(s, at, dot)
  }

  /** The first index of `c` in `s`. */
  function IndexOf(s: string, c: char): (r: Option<nat>)
    ensures r.None? <==> c !in s
    ensures r.Some? ==> r.value < |s| && s[r.value] == c && c !in s[..r.value]
  {
    if |s| == 0 then None
    else if s[0] == c then Some(0)
    else
      var r := IndexOf(s[1..], c);
      if r.None? then None
      else
        assert s[..r.value + 1] == [s[0]] + s[1..][..r.value];
        Some(r.value + 1)
  }

  /** The last index of `c` in `s`. */
  function LastIndexOf(s: string, c: char): (r: Option<nat>)
    ensures r.None? <==> c !in s
    ensures r.Some? ==> r.value < |s| && s[r.value] == c && c !in s[r.value + 1..]
  {
    if |s| == 0 then None
    else if s[|s| - 1] == c then Some(|s| - 1)
    else
      var init := s[..|s| - 1];
      assert s == init + [s[|s| - 1]];
      var r := LastIndexOf(init, c);
      if r.None? then None
      else
        assert s[r.value + 1..] == init[r.value + 1..] + [s[|s| - 1]];
        Some(r.value)
  }

  /** Matches the pattern by scanning: split at the first `@`, then at the last `.`. */
  predicate MatchesEmail(s: string) {
    var at := IndexOf(s, '@');
    at.Some? && at.value > 0 && AllLocal(s[..at.value]) && MatchesDomain(s[at.value + 1..])
  }

  /** The part after the `@`: domain characters, split at the last `.` before two or more letters. */
  predicate MatchesDomain(rest: string) {
    var dot := LastIndexOf(rest, '.');
    AllDomain(rest) && dot.Some? && dot.value > 0 && dot.value + 2 < |rest|
    && AllLetters(rest[dot.value + 1..])
  }

  /** The scanning matcher accepts only strings of the pattern's language. */
  lemma MatchesEmailSound(s: string)
    requires MatchesEmail(s)
    ensures EmailPattern(s)
  {
    var at := IndexOf(s, '@').value;
    var rest := s[at + 1..];
    var d := LastIndexOf(rest, '.').value;
    var dot := at + 1 + d;
    assert s[at + 1..dot] == rest[..d];
    assert s[dot + 1..] == rest[d + 1..];
    assert AllDomain(rest[..d]);
    assert SplitAt(s, at, dot);
  }

  /** In a split, the `@` at `at` is the only one, and the `.` at `dot` is the last `.` after it. */
  lemma SplitAtIsUnique(s: string, at: int, dot: int)
    requires SplitAt(s, at, dot)
    ensures forall i :: 0 <= i < |s| && i != at ==> s[i] != '@'
    ensures forall i :: dot < i < |s| ==> s[i] != '.'
    ensures forall i :: at < i < |s| ==> IsDomainChar(s[i])
  {
    forall i | 0 <= i < |s| && i != at ensures s[i] != '@' {
      if i < at {
        assert s[i] == s[..at][i];
      } else if i < dot {
        assert s[i] == s[at + 1..dot][i - at - 1];
      } else if i > dot {
        assert s[i] == s[dot + 1..][i - dot - 1];
      }
    }
    forall i | dot < i < |s| ensures s[i] != '.' && IsDomainChar(s[i]) {
      assert s[i] == s[dot + 1..][i - dot - 1];
    }
    forall i | at < i < dot ensures IsDomainChar(s[i]) {
      assert s[i] == s[at + 1..dot][i - at - 1];
    }
  }

  /** A character that occurs only at `k` is first found at `k`. */
  lemma FirstIndexIs(s: string, c: char, k: nat)
    requires k < |s| && s[k] == c
    requires forall i :: 0 <= i < |s| && i != k ==> s[i] != c
    ensures IndexOf(s, c) == Some(k)
  {
    assert c in s;
  }

  /** A character at `k` that does not occur after `k` is last found at `k`. */
  lemma LastIndexIs(s: string, c: char, k: nat)
    requires k < |s| && s[k] == c
    requires forall i :: k < i < |s| ==> s[i] != c
    ensures LastIndexOf(s, c) == Some(k)
  {
    assert c in s;
    var r := LastIndexOf(s, c).value;
    forall j | r < j < |s| ensures s[j] != c {
      assert s[j] == s[r + 1..][j - r - 1];
    }
  }

  /** In a split, the first `@` is the one at `at`. */
  lemma FirstAtOfSplit(s: string, at: int, dot: int)
    requires SplitAt(s, at, dot)
    ensures IndexOf(s, '@') == Some(at)
  {
    SplitAtIsUnique(s, at, dot);
    FirstIndexIs(s, '@', at);
  }

  /** In a split, all after the `@` is domain characters, and the last `.` there is the one at `dot`. */
  lemma AfterAtOfSplit(s: string, at: int, dot: int)
    requires SplitAt(s, at, dot)
    ensures MatchesDomain(s[at + 1..])
  {
    SplitAtIsUnique(s, at, dot);
    var rest := s[at + 1..];
    forall i | 0 <= i < |rest| ensures rest[i] == s[at + 1 + i] {
    }
    LastIndexIs(rest, '.', dot - at - 1);
    assert rest[dot - at..] == s[dot + 1..];
  }

  /** Every string of the pattern's language is accepted by the scanning matcher. */
  lemma MatchesEmailComplete(s: string)
    requires EmailPattern(s)
    ensures MatchesEmail(s)
  {
    var at, dot :| SplitAt(s, at, dot);
    FirstAtOfSplit(s, at, dot);
    AfterAtOfSplit(s, at, dot);
  }

  /** The scanning matcher accepts exactly the language of the pattern. */
  lemma MatchesEmailIsPattern(s: string)
    ensures MatchesEmail(s) <==> EmailPattern(s)
  {
    if MatchesEmail(s) { MatchesEmailSound(s); }
    if EmailPattern(s) { MatchesEmailComplete(s); }
  }

  /** Whatever the pattern accepts has a single `@`, and ends with `.` and two or more letters. */
  lemma EmailPatternShape(s: string)
    requires EmailPattern(s)
    ensures '@' in s
    ensures exists dot :: 0 <= dot < |s| - 2 && s[dot] == '.' && AllLetters(s[dot + 1..])
    ensures forall i, j :: 0 <= i < |s| && 0 <= j < |s| && s[i] == '@' && s[j] == '@' ==> i == j
  {
    var at, dot :| SplitAt(s, at, dot);
    SplitAtIsUnique(s, at, dot);
  }

  /** `required` plus the e-mail `pattern`, as on the login and registration forms. */
  function EmailError(email: string): (err: Option<string>)
    ensures err == None <==> MatchesEmail(email)
    ensures email == "" ==> err == Some("Email is required")
    ensures email != "" && !MatchesEmail(email) ==> err == Some("Invalid email address")
  {
    if email == "" then Some("Email is required")
    else if !MatchesEmail(email) then Some("Invalid email address")
    else None
  }
}
