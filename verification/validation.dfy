/**
 `validateField` of the contact form as a pure function of the field's
 value, `required` attribute, `type` and `name`. The value is trimmed, then
 three checks run in order and each failing one overwrites the message, so
 the last failing check decides what the visitor reads.
 */
module Validation {
  import opened Text

  datatype Field = Field(value: string, required: bool, fieldType: string, name: string)

  datatype Verdict = Verdict(isValid: bool, errorMessage: string)

  const RequiredMessage: string := "This field is required"
  const EmailMessage: string := "Please enter a valid email address"
  const LengthMessage: string := "Message must be at least 10 characters long"

  /** The least trimmed length a `message` field accepts. */
  const MinMessageLength: nat := 10

  /** A character of the class `[^\s@]`. */
  predicate EmailChar(c: char) {
    !IsWhitespace(c) && c != '@'
  }

  ghost predicate AllEmailChars(s: string) {
    forall i | 0 <= i < |s| :: EmailChar(s[i])
  }

  /**
   What `/^[^\s@]+@[^\s@]+\.[^\s@]+$/` accepts, read off the pattern: three
   non-empty runs of `[^\s@]`, the first two joined by `@` at `at` and the
   last two by `.` at `dot`.
   */
  ghost predicate EmailPattern(s: string) {
    exists at, dot | 0 < at && at + 1 < dot && dot + 1 < |s| ::
      && s[at] == '@' && s[dot] == '.'
      && AllEmailChars(s[..at]) && AllEmailChars(s[at + 1..dot]) && AllEmailChars(s[dot + 1..])
  }

  /** Index of the first `c` in `s`, or `|s|` when there is none. */
  function IndexOf(s: string, c: char): (r: nat)
    ensures r <= |s|
    ensures r < |s| ==> s[r] == c
    ensures forall i | 0 <= i < r :: s[i] != c
  {
    if s == [] then 0
    else if s[0] == c then 0
    else 1 + IndexOf(s[1..], c)
  }

  /**
   The email test written as a scan: no whitespace anywhere, exactly one
   `@` with something before it, and a `.` in the domain that is neither
   its first nor its last character.
   */
  predicate EmailScan(s: string) {
    var at := IndexOf(s, '@');
    && 0 < at < |s|
    && (forall i | 0 <= i < |s| :: !IsWhitespace(s[i]))
    && (forall i | at < i < |s| :: s[i] != '@')
    && (exists i | at + 1 < i < |s| - 1 :: s[i] == '.')
  }

  /** A slice is all `[^\s@]` exactly when each of its positions is. */
  lemma AllEmailCharsSlice(s: string, lo: nat, hi: nat)
    requires lo <= hi <= |s|
    ensures AllEmailChars(s[lo..hi]) <==> forall i | lo <= i < hi :: EmailChar(s[i])
  {
    var t := s[lo..hi];
    assert forall i | lo <= i < hi :: s[i] == t[i - lo];
  }

  /** `emailRegex.test`: the scan, which accepts exactly the strings the regular expression accepts. */
  predicate IsEmail(s: string): (b: bool)
    ensures b <==> EmailPattern(s)
  {
    ScanIffPattern(s);
    EmailScan(s)
  }

  lemma ScanIffPattern(s: string)
    ensures EmailScan(s) <==> EmailPattern(s)
  {
    if EmailScan(s) {
      ScanMatchesPattern(s);
    }
    if EmailPattern(s) {
      PatternPassesScan(s);
    }
  }

  lemma ScanMatchesPattern(s: string)
    requires EmailScan(s)
    ensures EmailPattern(s)
  {
    var at := IndexOf(s, '@');
    var dot :| at + 1 < dot < |s| - 1 && s[dot] == '.';
    AllEmailCharsSlice(s, 0, at);
    AllEmailCharsSlice(s, at + 1, dot);
    AllEmailCharsSlice(s, dot + 1, |s|);
    assert s[..at] == s[0..at];
    assert s[dot + 1..] == s[dot + 1..|s|];
  }

  lemma PatternPassesScan(s: string)
    requires EmailPattern(s)
    ensures EmailScan(s)
  {
    var at, dot :| && 0 < at && at + 1 < dot && dot + 1 < |s|
                   && s[at] == '@' && s[dot] == '.'
                   && AllEmailChars(s[..at]) && AllEmailChars(s[at + 1..dot]) && AllEmailChars(s[dot + 1..]);
    assert s[..at] == s[0..at];
    assert s[dot + 1..] == s[dot + 1..|s|];
    AllEmailCharsSlice(s, 0, at);
    AllEmailCharsSlice(s, at + 1, dot);
    AllEmailCharsSlice(s, dot + 1, |s|);
    forall i | 0 <= i < |s|
      ensures !IsWhitespace(s[i]) && (i != at ==> s[i] != '@')
    {
      if i < at {
        assert EmailChar(s[i]);
      } else if at < i < dot {
        assert EmailChar(s[i]);
      } else if dot < i {
        assert EmailChar(s[i]);
      }
    }
    assert IndexOf(s, '@') == at;
  }

  /** The three checks of `validateField`, in the order they run. */
  datatype Check = RequiredCheck | EmailCheck | LengthCheck

  function MessageOf(c: Check): string {
    match c
    case RequiredCheck => RequiredMessage
    case EmailCheck => EmailMessage
    case LengthCheck => LengthMessage
  }

  /** The checks a field fails, in source order, stated with the regular expression itself. */
  ghost function FailingChecks(f: Field): seq<Check> {
    var value := Trim(f.value);
    (if f.required && value == [] then [RequiredCheck] else [])
    + (if f.fieldType == "email" && value != [] && !EmailPattern(value) then [EmailCheck] else [])
    + (if f.name == "message" && |value| < MinMessageLength then [LengthCheck] else [])
  }

  /**
   `validateField`: valid exactly when no check fails; otherwise the message
   of the last failing check. A field is never both valid and carrying a
   message.
   */
  function ValidateField(f: Field): (v: Verdict)
    ensures v.isValid <==> FailingChecks(f) == []
    ensures var failing := FailingChecks(f);
            v.errorMessage == if failing == [] then "" else MessageOf(failing[|failing| - 1])
    ensures !v.isValid <==>
              || (f.required && AllWhitespace(f.value))
              || (f.fieldType == "email" && !AllWhitespace(f.value) && !EmailPattern(Trim(f.value)))
              || (f.name == "message" && |Trim(f.value)| < MinMessageLength)
  {
    var value := Trim(f.value);
    var afterRequired :=
      if f.required && value == "" then Verdict(false, RequiredMessage) else Verdict(true, "");
    var afterEmail :=
      if f.fieldType == "email" && value != "" && !IsEmail(value) then Verdict(false, EmailMessage)
      else afterRequired;
    var afterLength :=
      if f.name == "message" && |value| < MinMessageLength then Verdict(false, LengthMessage)
      else afterEmail;
    afterLength
  }

  /** Surrounding whitespace never changes the verdict. */
  lemma ValidateIgnoresSurroundingWhitespace(f: Field)
    ensures ValidateField(f.(value := Trim(f.value))) == ValidateField(f)
  {
    TrimIdempotent(f.value);
  }

  /** A `message` field that is too short reports the length error, whatever else fails. */
  lemma ShortMessageReportsLength(f: Field)
    requires f.name == "message" && |Trim(f.value)| < MinMessageLength
    ensures ValidateField(f) == Verdict(false, LengthMessage)
  {
  }
}
