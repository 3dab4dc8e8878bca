/** The field validators of utils/validationUtils.ts. Each regular
    expression is recognised character by character and proved equal to a
    description of the strings it accepts. */
module ValidationUtils {
  import opened Wrappers
  import opened Text

  // ---------------------------------------------------------------------
  // Email: /^[^\s@]+@[^\s@]+\.[^\s@]+$/
  // ---------------------------------------------------------------------

  /** The class `[^\s@]`. */
  predicate EmailChar(c: char)
  {
    !IsWhitespace(c) && c != '@'
  }

  predicate AllEmailChars(s: string)
  {
    forall i :: 0 <= i < |s| ==> EmailChar(s[i])
  }

  /** A '.' at index `j` of `d` with at least one character after it. */
  predicate DotAt(d: string, j: int)
  {
    0 <= j < |d| - 1 && d[j] == '.'
  }

  /** The domain part `[^\s@]+\.[^\s@]+`: no blank and no '@', and a '.'
      that is neither its first nor its last character. */
  ghost predicate DomainShape(d: string)
  {
    AllEmailChars(d) && exists j :: 0 < j && DotAt(d, j)
  }

  /** `s` is local part, '@' at index `k`, domain part, with a non-empty
      local part free of blanks and '@'. */
  ghost predicate EmailSplitAt(s: string, k: int)
  {
    0 < k < |s| && s[k] == '@' && AllEmailChars(s[..k]) && DomainShape(s[k + 1..])
  }

  /** The strings the email pattern accepts: local part "@" domain part. */
  ghost predicate EmailShape(s: string)
  {
    exists k :: EmailSplitAt(s, k)
  }

  /** The states of a deterministic automaton for the email pattern. */
  datatype EmailState =
    | Start      // nothing read
    | Local      // a non-empty local part
    | AtSign     // the '@' and nothing after it
    | Domain     // domain characters, no completing '.' yet
    | DomainDot  // as Domain, ending in a '.' that has characters before it
    | Accept     // a complete address
    | Reject

  function EmailStep(q: EmailState, c: char): EmailState
  {
    match q
    case Start => if EmailChar(c) then Local else Reject
    case Local => if EmailChar(c) then Local else if c == '@' then AtSign else Reject
    case AtSign => if EmailChar(c) then Domain else Reject
    case Domain => if c == '.' then DomainDot else if EmailChar(c) then Domain else Reject
    case DomainDot => if EmailChar(c) then Accept else Reject
    case Accept => if EmailChar(c) then Accept else Reject
    case Reject => Reject
  }

  function EmailRun(q: EmailState, s: string): EmailState
    decreases |s|
  {
    if s == [] then q else EmailRun(EmailStep(q, s[0]), s[1..])
  }

  lemma {:induction false} RunFromReject(s: string)
    ensures EmailRun(Reject, s) == Reject
  {
    if s != [] {
      RunFromReject(s[1..]);
    }
  }

  lemma {:induction false} RunFromAccept(s: string)
    ensures EmailRun(Accept, s) == Accept <==> AllEmailChars(s)
  {
    if s != [] {
      if EmailChar(s[0]) {
        RunFromAccept(s[1..]);
      } else {
        RunFromReject(s[1..]);
      }
    }
  }

  lemma {:induction false} RunFromDomainDot(s: string)
    ensures EmailRun(DomainDot, s) == Accept <==> s != [] && AllEmailChars(s)
  {
    if s != [] {
      if EmailChar(s[0]) {
        RunFromAccept(s[1..]);
      } else {
        RunFromReject(s[1..]);
      }
    }
  }

  lemma {:induction false} RunFromDomain(s: string)
    ensures EmailRun(Domain, s) == Accept <==> AllEmailChars(s) && exists j :: DotAt(s, j)
  {
    if s != [] {
      if s[0] == '.' {
        RunFromDomainDot(s[1..]);
        if s[1..] != [] {
          assert DotAt(s, 0);
        }
      } else if EmailChar(s[0]) {
        RunFromDomain(s[1..]);
        if exists j :: DotAt(s[1..], j) {
          var j :| DotAt(s[1..], j);
          assert DotAt(s, j + 1);
        }
        if exists j :: DotAt(s, j) {
          var j :| DotAt(s, j);
          assert DotAt(s[1..], j - 1);
        }
      } else {
        RunFromReject(s[1..]);
      }
    }
  }

  lemma {:induction false} RunFromAtSign(s: string)
    ensures EmailRun(AtSign, s) == Accept <==> DomainShape(s)
  {
    if s != [] {
      if EmailChar(s[0]) {
        RunFromDomain(s[1..]);
        if exists j :: DotAt(s[1..], j) {
          var j :| DotAt(s[1..], j);
          assert DotAt(s, j + 1);
        }
        if exists j :: 0 < j && DotAt(s, j) {
          var j :| 0 < j && DotAt(s, j);
          assert DotAt(s[1..], j - 1);
        }
      } else {
        RunFromReject(s[1..]);
      }
    }
  }

  /** `s` holds an '@' at index `k`, preceded only by local-part
      characters and followed by a domain part. */
  ghost predicate AtThenDomain(s: string, k: int)
  {
    0 <= k < |s| && s[k] == '@' && AllEmailChars(s[..k]) && DomainShape(s[k + 1..])
  }

  lemma {:induction false} RunFromLocal(s: string)
    ensures EmailRun(Local, s) == Accept <==> exists k :: AtThenDomain(s, k)
  {
    if s != [] {
      if EmailChar(s[0]) {
        RunFromLocal(s[1..]);
        if exists k :: AtThenDomain(s[1..], k) {
          var k :| AtThenDomain(s[1..], k);
          AtThenDomainShift(s, k + 1);
        }
        if exists k :: AtThenDomain(s, k) {
          var k :| AtThenDomain(s, k);
          AtThenDomainShift(s, k);
        }
      } else {
        RunFromAtSign(s[1..]);
        RunFromReject(s[1..]);
        if exists k :: AtThenDomain(s, k) {
          var k :| AtThenDomain(s, k);
          AtThenDomainFirst(s, k);
        }
        if s[0] == '@' && DomainShape(s[1..]) {
          assert AtThenDomain(s, 0);
        }
      }
    }
  }

  /** Past a local-part character, the '@' moves one place left. */
  lemma AtThenDomainShift(s: string, k: int)
    requires s != [] && EmailChar(s[0]) && 0 < k
    ensures AtThenDomain(s, k) <==> AtThenDomain(s[1..], k - 1)
  {
    if 0 < k < |s| {
      assert s[..k] == [s[0]] + s[1..][..k - 1];
      assert s[k + 1..] == s[1..][k..];
      assert AllEmailChars(s[..k]) <==> AllEmailChars(s[1..][..k - 1]) by {
        assert forall i :: 0 < i < k ==> s[..k][i] == s[1..][..k - 1][i - 1];
      }
    }
  }

  /** When the first character is no local-part character, only an '@'
      right there can start the domain. */
  lemma AtThenDomainFirst(s: string, k: int)
    requires s != [] && !EmailChar(s[0]) && AtThenDomain(s, k)
    ensures k == 0 && s[0] == '@' && DomainShape(s[1..])
  {
  }

  /** Running the automaton from its start state accepts exactly the
      strings of the email shape. */
  lemma {:induction false} EmailAutomatonCorrect(s: string)
    ensures EmailRun(Start, s) == Accept <==> EmailShape(s)
  {
    if s != [] {
      if EmailChar(s[0]) {
        RunFromLocal(s[1..]);
        ShapeAfterFirst(s);
      } else {
        RunFromReject(s[1..]);
        NoShapeWithoutLocal(s);
      }
    }
  }

  /** After a first local-part character, an address is the rest holding
      an '@' with a domain after it. */
  lemma ShapeAfterFirst(s: string)
    requires s != [] && EmailChar(s[0])
    ensures EmailShape(s) <==> exists k :: AtThenDomain(s[1..], k)
  {
    if exists k :: AtThenDomain(s[1..], k) {
      var k :| AtThenDomain(s[1..], k);
      AtThenDomainShift(s, k + 1);
      assert EmailSplitAt(s, k + 1);
    }
    if EmailShape(s) {
      var k :| EmailSplitAt(s, k);
      AtThenDomainShift(s, k);
    }
  }

  /** An address starts with a local-part character. */
  lemma NoShapeWithoutLocal(s: string)
    requires s != [] && !EmailChar(s[0])
    ensures !EmailShape(s)
  {
    forall k | 0 < k < |s|
      ensures !EmailSplitAt(s, k)
    {
      assert s[..k][0] == s[0];
    }
  }

  /** An address begins and ends with a character of `[^\s@]`, so it
      carries no blank padding. */
  lemma EmailShapeEnds(s: string)
    requires EmailShape(s)
    ensures s != [] && EmailChar(s[0]) && EmailChar(s[|s| - 1])
    ensures IsTrimmed(s)
  {
    var k :| EmailSplitAt(s, k);
    assert s[..k][0] == s[0];
    assert s[k + 1..][|s| - k - 2] == s[|s| - 1];
  }

  /** `emailRegex.test(t)`: the automaton run over the whole string. */
  function EmailPatternMatches(t: string): (r: bool)
    ensures r <==> EmailShape(t)
  {
    EmailAutomatonCorrect(t);
    EmailRun(Start, t) == Accept
  }

  /** `validateEmail`: the trimmed input has the email shape. */
  function ValidateEmail(email: string): (r: bool)
    ensures r <==> EmailShape(Trim(email))
  {
    EmailPatternMatches(Trim(email))
  }

  /** Blank padding around an address never changes the verdict, and in
      particular `validateEmail(s) == validateEmail(s.trim())`. */
  lemma EmailVerdictIgnoresPadding(pre: string, s: string, post: string)
    requires IsBlank(pre) && IsBlank(post)
    ensures ValidateEmail(pre + s + post) == ValidateEmail(s)
    ensures ValidateEmail(Trim(s)) == ValidateEmail(s)
  {
    TrimIgnoresPadding(pre, s, post);
    TrimIdempotent(s);
  }

  // ---------------------------------------------------------------------
  // Character-class repetition, shared by the name and phone patterns
  // ---------------------------------------------------------------------

  /** An anchored `[class]{n,}`: consumes the string one character at a
      time, counting down the required minimum. */
  function RepeatAtLeast(s: string, inClass: char -> bool, n: nat): (r: bool)
    ensures r <==> |s| >= n && forall i :: 0 <= i < |s| ==> inClass(s[i])
    decreases |s|
  {
    if s == [] then n == 0
    else inClass(s[0]) && RepeatAtLeast(s[1..], inClass, if n == 0 then 0 else n - 1)
  }

  // ---------------------------------------------------------------------
  // Patient name: /^[a-zA-Z\s]{2,}$/
  // ---------------------------------------------------------------------

  /** The class `[a-zA-Z\s]`. */
  predicate NameChar(c: char)
  {
    ('a' <= c <= 'z') || ('A' <= c <= 'Z') || IsWhitespace(c)
  }

  /** `validatePatientName`: the trimmed name has at least two characters,
      each an ASCII letter or whitespace. */
  function ValidatePatientName(name: string): (r: bool)
    ensures r <==> |Trim(name)| >= 2 && forall i :: 0 <= i < |Trim(name)| ==> NameChar(Trim(name)[i])
  {
    RepeatAtLeast(Trim(name), NameChar, 2)
  }

  // ---------------------------------------------------------------------
  // Phone number: /^\+?[\d\s\-$$$$]{10,}$/
  // ---------------------------------------------------------------------

  /** The class `[\d\s\-$$$$]` as written: an ASCII digit, whitespace,
      '-' or '$'. */
  predicate PhoneChar(c: char)
  {
    ('0' <= c <= '9') || IsWhitespace(c) || c == '-' || c == '$'
  }

  predicate AllPhoneChars(s: string)
  {
    forall i :: 0 <= i < |s| ==> PhoneChar(s[i])
  }

  /** The phone pattern over a given character class, with its two
      readings of `\+?`: consume a leading '+', or do not. */
  function PhonePatternMatches(t: string, inClass: char -> bool): bool
  {
    (t != [] && t[0] == '+' && RepeatAtLeast(t[1..], inClass, 10)) || RepeatAtLeast(t, inClass, 10)
  }

  /** `validatePhoneNumber` as written: the trimmed number is an optional
      '+' and then at least ten digits, blanks, '-' or '$'. */
  function ValidatePhoneNumber(phone: string): (r: bool)
    ensures var t := Trim(phone);
      r <==> if t != [] && t[0] == '+' then |t| >= 11 && AllPhoneChars(t[1..]) else |t| >= 10 && AllPhoneChars(t)
  {
    PhonePatternMatches(Trim(phone), PhoneChar)
  }

  /** The class as written lets a run of dollar signs through as a phone
      number. */
  lemma DollarsPassAsPhone()
    ensures ValidatePhoneNumber("$$$$$$$$$$")
  {
    var t := "$$$$$$$$$$";
    TrimOfTrimmed(t);
    assert AllPhoneChars(t);
  }

  /** The class as written turns away the usual bracketed area code. */
  lemma BracketsFailAsPhone()
    ensures !ValidatePhoneNumber("(555) 123-4567")
  {
    PhoneRejectsBadStart("(555) 123-4567");
  }

  /** A trimmed number whose first character is neither '+' nor in the
      class fails. */
  lemma PhoneRejectsBadStart(t: string)
    requires t != [] && IsTrimmed(t) && t[0] != '+' && !PhoneChar(t[0])
    ensures !ValidatePhoneNumber(t)
  {
    TrimOfTrimmed(t);
  }

  /** The class the phone pattern evidently means: an ASCII digit,
      whitespace, '-', '(' or ')'. */
  predicate IntendedPhoneChar(c: char)
  {
    ('0' <= c <= '9') || IsWhitespace(c) || c == '-' || c == '(' || c == ')'
  }

  predicate AllIntendedPhoneChars(s: string)
  {
    forall i :: 0 <= i < |s| ==> IntendedPhoneChar(s[i])
  }

  /** The phone check with the evidently intended class: an optional '+'
      and then at least ten digits, blanks, dashes or brackets, so that a
      number accepted holds no '$'. */
  function ValidatePhoneNumberIntended(phone: string): (r: bool)
    ensures var t := Trim(phone);
      r <==> if t != [] && t[0] == '+' then |t| >= 11 && AllIntendedPhoneChars(t[1..])
             else |t| >= 10 && AllIntendedPhoneChars(t)
    ensures r ==> forall i :: 0 <= i < |Trim(phone)| ==> Trim(phone)[i] != '$'
  {
    PhonePatternMatches(Trim(phone), IntendedPhoneChar)
  }

  /** With the intended class a bracketed number passes. */
  lemma IntendedPhoneAcceptsBrackets()
    ensures ValidatePhoneNumberIntended("(555) 123-4567")
  {
    IntendedPhoneAccepts("(555) 123-4567");
  }

  /** A trimmed run of at least ten characters of the intended class,
      without a leading '+', passes. */
  lemma IntendedPhoneAccepts(t: string)
    requires |t| >= 10 && IsTrimmed(t) && t[0] != '+' && AllIntendedPhoneChars(t)
    ensures ValidatePhoneNumberIntended(t)
  {
    TrimOfTrimmed(t);
  }

  /** With the intended class dollar signs do not pass. */
  lemma IntendedPhoneRejectsDollars()
    ensures !ValidatePhoneNumberIntended("$$$$$$$$$$")
  {
    var t := "$$$$$$$$$$";
    TrimOfTrimmed(t);
    assert !IntendedPhoneChar(t[0]);
  }

  // ---------------------------------------------------------------------
  // validateFormField
  // ---------------------------------------------------------------------

  /** `ValidationResult`: `errorMessage` is absent when it was not set. */
  datatype ValidationResult = ValidationResult(isValid: bool, errorMessage: Option<string>)

  const EmailFormatMessage := "Please enter a valid email address"
  const NameFormatMessage := "Name must contain only letters and spaces (minimum 2 characters)"

  /** The lower-cased field names that select the email rule. */
  predicate IsEmailField(fieldName: string)
  {
    ToLower(fieldName) == "email"
  }

  /** The lower-cased field names that select the name rule. */
  predicate IsNameField(fieldName: string)
  {
    ToLower(fieldName) == "patientname" || ToLower(fieldName) == "name"
  }

  /** `validateFormField(fieldName, value, isRequired = true)`: the required
      check first, then the rule the lower-cased field name selects, applied
      only to a non-empty value. */
  function ValidateFormField(fieldName: string, value: string, isRequired: bool := true): (r: ValidationResult)
    ensures r.isValid <==> r.errorMessage == None
    ensures isRequired && IsBlank(value) ==> r == ValidationResult(false, Some(fieldName + " is required"))
    ensures r.isValid <==>
      && !(isRequired && IsBlank(value))
      && (IsEmailField(fieldName) && value != "" ==> EmailShape(Trim(value)))
      && (IsNameField(fieldName) && value != "" ==> ValidatePatientName(value))
    ensures !r.isValid && !(isRequired && IsBlank(value)) ==>
      r.errorMessage == Some(if IsEmailField(fieldName) then EmailFormatMessage else NameFormatMessage)
    ensures !isRequired && value == "" ==> r.isValid
    ensures !isRequired && value != "" && IsBlank(value) && (IsEmailField(fieldName) || IsNameField(fieldName)) ==> !r.isValid
  {
    if isRequired && Trim(value) == "" then
      ValidationResult(false, Some(fieldName + " is required"))
    else if IsEmailField(fieldName) then
      if value != "" && !ValidateEmail(value) then ValidationResult(false, Some(EmailFormatMessage))
      else ValidationResult(true, None)
    else if IsNameField(fieldName) then
      if value != "" && !ValidatePatientName(value) then ValidationResult(false, Some(NameFormatMessage))
      else ValidationResult(true, None)
    else
      ValidationResult(true, None)
  }

  /** The field name is matched without regard to ASCII case: two names
      that lower-case alike give the same verdict, and the same result
      whenever the required check passes. */
  lemma FieldNameCaseInsensitive(f: string, g: string, value: string, isRequired: bool)
    requires ToLower(f) == ToLower(g)
    ensures ValidateFormField(f, value, isRequired).isValid == ValidateFormField(g, value, isRequired).isValid
    ensures !(isRequired && IsBlank(value)) ==> ValidateFormField(f, value, isRequired) == ValidateFormField(g, value, isRequired)
  {
  }
}
