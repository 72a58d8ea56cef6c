/**
 * Field validation of the booking form (`validateField` in assets/js/script.js).
 *
 * The acceptance decision is a pure predicate over the field's `required`
 * attribute, whether its type is `email`, and its current value. The class
 * list update that follows the decision is modelled by the `FormField` class.
 */
module Validation {

  /** ECMAScript WhiteSpace and LineTerminator code points: the set that both
      `String.prototype.trim` and the regular-expression class `\s` use. */
  predicate IsWhitespace(c: char)
    ensures '!' <= c <= '~' ==> !IsWhitespace(c)
  {
    || '\t' <= c <= '\r'
    || c == ' ' || c == '\U{00A0}' || c == '\U{1680}'
    || '\U{2000}' <= c <= '\U{200A}'
    || c == '\U{2028}' || c == '\U{2029}' || c == '\U{202F}' || c == '\U{205F}'
    || c == '\U{3000}' || c == '\U{FEFF}'
  }

  predicate AllWhitespace(s: string) {
    forall i | 0 <= i < |s| :: IsWhitespace(s[i])
  }

  /** Drops the leading whitespace of `s`. */
  function TrimStart(s: string): (r: string)
    ensures |r| <= |s| && r == s[|s| - |r|..]
    ensures forall j | 0 <= j < |s| - |r| :: IsWhitespace(s[j])
    ensures r != [] ==> !IsWhitespace(r[0])
  {
    if s != [] && IsWhitespace(s[0]) then TrimStart(s[1..]) else s
  }

  /** Drops the trailing whitespace of `s`. */
  function TrimEnd(s: string): (r: string)
    ensures |r| <= |s| && r == s[..|r|]
    ensures forall j | |r| <= j < |s| :: IsWhitespace(s[j])
    ensures r != [] ==> !IsWhitespace(r[|r| - 1])
  {
    if s != [] && IsWhitespace(s[|s| - 1]) then TrimEnd(s[..|s| - 1]) else s
  }

  /** `r` is the slice of `s` starting at `k`, and what lies on either side
      of it is whitespace. */
  ghost predicate TrimmedAt(s: string, r: string, k: int) {
    && 0 <= k && k + |r| <= |s| && r == s[k..k + |r|]
    && AllWhitespace(s[..k]) && AllWhitespace(s[k + |r|..])
  }

  /** `String.prototype.trim`: the value without its leading and trailing
      whitespace. */
  function Trim(s: string): (r: string)
    ensures |r| <= |s|
    ensures r != [] ==> !IsWhitespace(r[0]) && !IsWhitespace(r[|r| - 1])
  {
    TrimEnd(TrimStart(s))
  }

  /** What `Trim` returns: a contiguous slice of `s` that neither starts nor
      ends with whitespace, and everything cut away on either side is
      whitespace. */
  lemma TrimSpec(s: string)
    ensures exists k :: TrimmedAt(s, Trim(s), k)
    ensures Trim(s) != [] ==> !IsWhitespace(Trim(s)[0]) && !IsWhitespace(Trim(s)[|Trim(s)| - 1])
  {
    TrimStartThenEnd(s, TrimStart(s), Trim(s));
  }

  lemma TrimStartThenEnd(s: string, t: string, r: string)
    requires |t| <= |s| && t == s[|s| - |t|..]
    requires forall j | 0 <= j < |s| - |t| :: IsWhitespace(s[j])
    requires t != [] ==> !IsWhitespace(t[0])
    requires |r| <= |t| && r == t[..|r|]
    requires forall j | |r| <= j < |t| :: IsWhitespace(t[j])
    requires r != [] ==> !IsWhitespace(r[|r| - 1])
    ensures TrimmedAt(s, r, |s| - |t|)
    ensures r != [] ==> !IsWhitespace(r[0]) && !IsWhitespace(r[|r| - 1])
  {
    var k := |s| - |t|;
    assert r == s[k..k + |r|];
    assert forall j | k + |r| <= j < |s| :: s[j] == t[j - k];
  }

  /** `!value.trim()` holds exactly when every character of the value is
      whitespace (the empty value included). */
  lemma {:induction false} TrimEmptyIffAllWhitespace(s: string)
    ensures Trim(s) == [] <==> AllWhitespace(s)
  {
    TrimSpec(s);
    var r := Trim(s);
    var k :| TrimmedAt(s, r, k);
    if r == [] {
      forall i | 0 <= i < |s| ensures IsWhitespace(s[i]) {
        if i < k {
          assert s[i] == s[..k][i];
        } else {
          assert s[i] == s[k..][i - k];
        }
      }
    } else {
      assert s[k] == r[0];
    }
  }

  // ---------------------------------------------------------------------
  // The email pattern /^[^\s@]+@[^\s@]+\.[^\s@]+$/
  // ---------------------------------------------------------------------

  /** A character of the class `[^\s@]`. */
  predicate EmailChar(c: char) {
    !IsWhitespace(c) && c != '@'
  }

  predicate AllEmailChars(s: string) {
    forall i | 0 <= i < |s| :: EmailChar(s[i])
  }

  /** `s` matches the pattern with its literal `@` at index `at` and its
      literal `.` at index `dot`: the three `[^\s@]+` groups are the
      non-empty runs before `at`, between `at` and `dot`, and after `dot`. */
  ghost predicate PatternSplit(s: string, at: int, dot: int) {
    && 0 < at && at + 1 < dot && dot + 1 < |s|
    && s[at] == '@' && s[dot] == '.'
    && AllEmailChars(s[..at]) && AllEmailChars(s[at + 1..dot]) && AllEmailChars(s[dot + 1..])
  }

  /** The regular expression's own meaning: some choice of the two literal
      positions makes the whole string match. */
  ghost predicate MatchesEmailPattern(s: string) {
    exists at, dot :: PatternSplit(s, at, dot)
  }

  function Occurrences(s: string, c: char): (n: nat)
    ensures n <= |s|
  {
    if s == [] then 0 else (if s[0] == c then 1 else 0) + Occurrences(s[1..], c)
  }

  /** The index of the first `c` in `s`, or `|s|` when there is none. */
  function IndexOf(s: string, c: char): (k: nat)
    ensures k <= |s|
    ensures k < |s| ==> s[k] == c
    ensures forall j | 0 <= j < k :: s[j] != c
  {
    if s == [] then 0 else if s[0] == c then 0 else 1 + IndexOf(s[1..], c)
  }

  predicate NoWhitespace(s: string) {
    forall i | 0 <= i < |s| :: !IsWhitespace(s[i])
  }

  /** The domain holds a `.` with at least one character on each side. */
  predicate HasInnerDot(domain: string) {
    exists k | 0 < k < |domain| - 1 :: domain[k] == '.'
  }

  /** The structural reading of the email pattern: no whitespace, exactly
      one `@`, a non-empty local part, and a domain with an inner `.`. */
  predicate IsEmailAddress(s: string)
    ensures IsEmailAddress(s) ==> |s| >= 5 && s[0] != '@'
  {
    && NoWhitespace(s)
    && Occurrences(s, '@') == 1
    && var at := IndexOf(s, '@');
    && 0 < at < |s|
    && HasInnerDot(s[at + 1..])
  }

  lemma {:induction false} OccurrencesSplit(s: string, c: char, k: nat)
    requires k < |s|
    ensures Occurrences(s, c) == Occurrences(s[..k], c) + (if s[k] == c then 1 else 0) + Occurrences(s[k + 1..], c)
  {
    if k > 0 {
      OccurrencesSplit(s[1..], c, k - 1);
      assert s[1..][..k - 1] == s[1..k];
      assert s[1..][k - 1 + 1..] == s[k + 1..];
      assert s[..k][1..] == s[1..k];
    }
  }

  lemma {:induction false} OccurrencesZero(s: string, c: char)
    ensures Occurrences(s, c) == 0 <==> forall i | 0 <= i < |s| :: s[i] != c
  {
    if s != [] {
      OccurrencesZero(s[1..], c);
      assert forall i | 1 <= i < |s| :: s[i] == s[1..][i - 1];
    }
  }

  /** The structural reading and the regular expression accept the same
      strings. */
  lemma EmailStructureMatchesPattern(s: string)
    ensures IsEmailAddress(s) <==> MatchesEmailPattern(s)
  {
    if IsEmailAddress(s) {
      StructureImpliesPattern(s);
    }
    if MatchesEmailPattern(s) {
      PatternImpliesStructure(s);
    }
  }

  lemma StructureImpliesPattern(s: string)
    requires IsEmailAddress(s)
    ensures MatchesEmailPattern(s)
  {
    var at := IndexOf(s, '@');
    var domain := s[at + 1..];
    var k :| 0 < k < |domain| - 1 && domain[k] == '.';
    var dot := at + 1 + k;
    OccurrencesSplit(s, '@', at);
    OccurrencesZero(s[at + 1..], '@');
    assert AllEmailChars(s[..at]);
    assert forall j | at < j < |s| :: s[j] != '@' by {
      forall j | at < j < |s| ensures s[j] != '@' {
        assert s[j] == domain[j - (at + 1)];
      }
    }
    assert AllEmailChars(s[at + 1..dot]);
    assert AllEmailChars(s[dot + 1..]);
    assert PatternSplit(s, at, dot);
  }

  lemma PatternImpliesStructure(s: string)
    requires MatchesEmailPattern(s)
    ensures IsEmailAddress(s)
  {
    var at, dot :| PatternSplit(s, at, dot);
    SplitHasNoWhitespace(s, at, dot);
    SplitHasOneAt(s, at, dot);
    var after := s[at + 1..];
    assert after[dot - (at + 1)] == '.';
    assert HasInnerDot(after);
  }

  lemma SplitHasNoWhitespace(s: string, at: int, dot: int)
    requires PatternSplit(s, at, dot)
    ensures NoWhitespace(s)
  {
    forall i | 0 <= i < |s| ensures !IsWhitespace(s[i]) {
      if i < at {
        assert s[i] == s[..at][i];
      } else if at < i < dot {
        assert s[i] == s[at + 1..dot][i - (at + 1)];
      } else if dot < i {
        assert s[i] == s[dot + 1..][i - (dot + 1)];
      }
    }
  }

  lemma SplitHasOneAt(s: string, at: int, dot: int)
    requires PatternSplit(s, at, dot)
    ensures Occurrences(s, '@') == 1 && IndexOf(s, '@') == at
  {
    var after := s[at + 1..];
    forall i | 0 <= i < |after| ensures after[i] != '@' {
      if i < dot - (at + 1) {
        assert after[i] == s[at + 1..dot][i];
      } else if i > dot - (at + 1) {
        assert after[i] == s[dot + 1..][i - (dot - at)];
      }
    }
    OccurrencesZero(after, '@');
    OccurrencesZero(s[..at], '@');
    OccurrencesSplit(s, '@', at);
    forall j | 0 <= j < at ensures s[j] != '@' {
      assert s[j] == s[..at][j];
    }
  }

  /** The example addresses: `a@b.c` and `user@example.com` match the
      pattern, `a@b` and `plaintext` do not. */
  lemma EmailExamples()
    ensures IsEmailAddress("a@b.c")
    ensures IsEmailAddress("user@example.com")
    ensures !IsEmailAddress("a@b")
    ensures !IsEmailAddress("plaintext")
  {
    ShortAddressAccepted();
    LongAddressAccepted();
    DotlessDomainRejected();
    PlainTextRejected();
  }

  lemma DotlessDomainRejected()
    ensures !IsEmailAddress("a@b")
  {
    EmailStructureMatchesPattern("a@b");
  }

  lemma PlainTextRejected()
    ensures !IsEmailAddress("plaintext")
  {
    var s := "plaintext";
    EmailStructureMatchesPattern(s);
    assert forall i | 0 <= i < |s| :: s[i] != '@';
  }

  lemma ShortAddressAccepted()
    ensures IsEmailAddress("a@b.c")
  {
    EmailStructureMatchesPattern("a@b.c");
    assert PatternSplit("a@b.c", 1, 3);
  }

  /** An address assembled from three non-empty runs of `[^\s@]` around the
      literal `@` and `.` matches the pattern. */
  lemma PatternFromParts(local: string, host: string, tld: string)
    requires local != [] && host != [] && tld != []
    requires AllEmailChars(local) && AllEmailChars(host) && AllEmailChars(tld)
    ensures MatchesEmailPattern(local + "@" + host + "." + tld)
  {
    var s := local + "@" + host + "." + tld;
    var at := |local|;
    var dot := at + 1 + |host|;
    assert s[..at] == local;
    assert s[at + 1..dot] == host;
    assert s[dot + 1..] == tld;
    assert PatternSplit(s, at, dot);
  }

  lemma LongAddressAccepted()
    ensures IsEmailAddress("user@example.com")
  {
    LongAddressMatches();
    EmailStructureMatchesPattern("user@example.com");
  }

  lemma LongAddressMatches()
    ensures MatchesEmailPattern("user@example.com")
  {
    LongAddressParts();
    PatternFromParts("user", "example", "com");
    assert "user" + "@" + "example" + "." + "com" == "user@example.com";
  }

  lemma LongAddressParts()
    ensures AllEmailChars("user") && AllEmailChars("example") && AllEmailChars("com")
  {
    LowercaseAreEmailChars("user");
    LowercaseAreEmailChars("example");
    LowercaseAreEmailChars("com");
  }

  /** Lower-case ASCII letters belong to `[^\s@]`. */
  lemma LowercaseAreEmailChars(s: string)
    requires forall i | 0 <= i < |s| :: 'a' <= s[i] <= 'z'
    ensures AllEmailChars(s)
  {
  }

  // ---------------------------------------------------------------------
  // The decision of validateField
  // ---------------------------------------------------------------------

  /** Whether `validateField` accepts a field: a required field whose value
      trims to nothing fails; an email field whose raw value is non-empty
      fails unless the value has the shape of an address; all else passes. */
  predicate FieldAccepts(required: bool, isEmail: bool, value: string)
    ensures !required && !isEmail ==> FieldAccepts(required, isEmail, value)
    ensures value == [] ==> (FieldAccepts(required, isEmail, value) <==> !required)
  {
    if required && Trim(value) == [] then false
    else if isEmail && value != [] && !IsEmailAddress(value) then false
    else true
  }

  /** The decision against the reference definitions: a required field needs
      a non-whitespace character, and a non-empty email value must match the
      regular expression. */
  lemma FieldAcceptsMeaning(required: bool, isEmail: bool, value: string)
    ensures FieldAccepts(required, isEmail, value) <==>
      && (required ==> !AllWhitespace(value))
      && (isEmail && value != [] ==> MatchesEmailPattern(value))
  {
    TrimEmptyIffAllWhitespace(value);
    EmailStructureMatchesPattern(value);
  }

  /** A required plain field passes exactly when its value holds a
      non-whitespace character. */
  lemma {:induction false} RequiredFieldNeedsNonWhitespace(value: string)
    ensures FieldAccepts(true, false, value) <==> exists i | 0 <= i < |value| :: !IsWhitespace(value[i])
  {
    FieldAcceptsMeaning(true, false, value);
    if FieldAccepts(true, false, value) {
      var i :| 0 <= i < |value| && !IsWhitespace(value[i]);
    }
  }

  /** The email check runs only on a non-empty raw value, and the required
      check only on the trimmed one: an optional empty email field passes, a
      required one holding only whitespace fails, `user@example.com` passes
      and `a@b` fails. */
  lemma EmailFieldExamples()
    ensures FieldAccepts(false, true, "")
    ensures !FieldAccepts(true, true, " \t")
    ensures FieldAccepts(true, true, "user@example.com")
    ensures !FieldAccepts(false, true, "a@b")
  {
    var blank := " \t";
    assert AllWhitespace(blank) by {
      assert blank[0] == ' ' && blank[1] == '\t';
    }
    FieldAcceptsMeaning(true, true, blank);
    FieldAcceptsMeaning(false, true, "");
    var good := "user@example.com";
    LongAddressAccepted();
    FieldAcceptsMeaning(true, true, good);
    EmailStructureMatchesPattern(good);
    assert !IsWhitespace(good[0]);
    var bad := "a@b";
    DotlessDomainRejected();
    FieldAcceptsMeaning(false, true, bad);
    EmailStructureMatchesPattern(bad);
  }

  /** The class list after validation: a pass removes `is-invalid` and adds
      `is-valid`; a failure adds `is-invalid` and leaves an earlier
      `is-valid` in place. No other class is touched. */
  function ValidatedClasses(classes: set<string>, ok: bool): (r: set<string>)
    ensures ok ==> "is-valid" in r && "is-invalid" !in r
    ensures !ok ==> "is-invalid" in r && ("is-valid" in r <==> "is-valid" in classes)
    ensures forall c | c != "is-valid" && c != "is-invalid" :: c in r <==> c in classes
  {
    if ok then classes - {"is-invalid"} + {"is-valid"} else classes + {"is-invalid"}
  }

  /** A form control that `validateField` runs on at blur time. */
  class FormField {
    const required: bool
    const isEmail: bool
    var value: string
    var classes: set<string>

    constructor (required: bool, isEmail: bool, value: string, classes: set<string>)
      ensures this.required == required && this.isEmail == isEmail
      ensures this.value == value && this.classes == classes
    {
      this.required := required;
      this.isEmail := isEmail;
      this.value := value;
      this.classes := classes;
    }

    /** `validateField`: returns the decision and records it in the class list. */
    method Validate() returns (ok: bool)
      modifies this`classes
      ensures ok == FieldAccepts(required, isEmail, value)
      ensures classes == ValidatedClasses(old(classes), ok)
    {
      if required && Trim(value) == [] {
        classes := classes + {"is-invalid"};
        return false;
      }
      if isEmail && value != [] {
        if !IsEmailAddress(value) {
          classes := classes + {"is-invalid"};
          return false;
        }
      }
      classes := classes - {"is-invalid"};
      classes := classes + {"is-valid"};
      return true;
    }
  }

  /** Two blurs in a row: a field that failed and is then corrected ends
      valid and no longer invalid; one that passed and is then emptied keeps
      `is-valid` beside `is-invalid`. */
  method RevalidateAfterEdit(required: bool, first: string, second: string)
    returns (firstOk: bool, secondOk: bool, classes: set<string>)
    ensures firstOk == FieldAccepts(required, false, first)
    ensures secondOk == FieldAccepts(required, false, second)
    ensures secondOk ==> classes == {"is-valid"}
    ensures firstOk && !secondOk ==> classes == {"is-valid", "is-invalid"}
    ensures !firstOk && !secondOk ==> classes == {"is-invalid"}
  {
    var f := new FormField(required, false, first, {});
    firstOk := f.Validate();
    f.value := second;
    secondOk := f.Validate();
    classes := f.classes;
  }
}
