/**
 * The registration form of BullionTest/ViewModels/AddUserViewModel.swift:
 * the fields the screen fills in, `submit`, which checks them in a fixed
 * order and reports either success or the list of error messages, the
 * password and e-mail rules, and `updatePassword`.
 *
 * The delegate is not modelled as an object: each operation returns the
 * call it makes on its delegate.
 */
module AddUser {
  import opened Common
  import Text

  /** A chosen profile picture, by its image data. */
  datatype Image = Image(data: seq<byte>)

  /** The calls the view model makes on its `AddUserViewModelDelegate`. */
  datatype DelegateCall =
    | ValidationSuccess
    | ValidationFailure(errors: seq<string>)
    | PasswordValidationUpdate(isValid: bool, message: string)

  // ---------------------------------------------------------------------
  // Messages

  const PhotoRequired := "Profile photo is required."
  const NameRequired := "Name is required."
  const GenderRequired := "Gender is required."
  const DobRequired := "Date of Birth is required."
  const InvalidEmail := "Invalid email format."
  const EmailRequired := "Email is required."
  const PhoneNotNumericMessage := "Phone number must contain only numbers."
  const PhoneRequired := "Phone number is required."
  const PasswordWeakMessage := "Password does not meet requirements."
  const PasswordRequired := "Password is required."
  const PasswordsDifferMessage := "Passwords do not match."
  const ConfirmRequired := "Please confirm your password."
  const PasswordMet := "Password requirements met."
  const PasswordHint := "Min 8 chars, 1 capital, 1 number, alphanumeric."

  /** `genderIndex` when no gender is selected. */
  const NoGender := -1

  // ---------------------------------------------------------------------
  // Password rule

  /**
   * `isValidPassword`: at least 8 characters, and at least one capital,
   * one digit and one letter (`[A-Z]`, `[0-9]`, `[a-zA-Z]`).
   */
  function IsValidPassword(pass: string): bool {
    if |pass| < 8 then false
    else
      var hasCapital := Text.Contains(pass, Text.IsAsciiUpper);
      var hasNumber := Text.Contains(pass, Text.IsAsciiDigit);
      var hasAlphabet := Text.Contains(pass, Text.IsAsciiLetter);
      hasCapital && hasNumber && hasAlphabet
  }

  /**
   * A password is valid exactly when it has at least 8 characters, a capital
   * A-Z and a digit 0-9: the letter test adds nothing, as a capital is a letter.
   */
  lemma PasswordRule(pass: string)
    ensures IsValidPassword(pass) <==>
      |pass| >= 8 && (exists k :: 0 <= k < |pass| && Text.IsAsciiUpper(pass[k])) && (exists k :: 0 <= k < |pass| && Text.IsAsciiDigit(pass[k]))
  {
    if |pass| >= 8 && Text.Contains(pass, Text.IsAsciiUpper) {
      var k :| 0 <= k < |pass| && Text.IsAsciiUpper(pass[k]);
      assert Text.IsAsciiLetter(pass[k]);
    }
  }

  // ---------------------------------------------------------------------
  // E-mail rule: `[A-Z0-9a-z._%+-]+@[A-Za-z0-9.-]+\.[A-Za-z]{2,64}`, whole string

  predicate IsLocalChar(c: char) {
    Text.IsAsciiLetter(c) || Text.IsAsciiDigit(c) || c == '.' || c == '_' || c == '%' || c == '+' || c == '-'
  }

  predicate IsDomainChar(c: char) {
    Text.IsAsciiLetter(c) || Text.IsAsciiDigit(c) || c == '.' || c == '-'
  }

  /**
   * `s` read as local part `s[..at]`, `@` at `at`, domain `s[at + 1..dot]`,
   * `.` at `dot` and top-level domain `s[dot + 1..]`, each part drawn from
   * its character class and of the length the pattern allows.
   */
  predicate EmailSplit(s: string, at: int, dot: int) {
    && 0 < at && at + 1 < dot && dot < |s|
    && s[at] == '@' && s[dot] == '.'
    && Text.All(s[..at], IsLocalChar)
    && Text.All(s[at + 1..dot], IsDomainChar)
    && 2 <= |s| - (dot + 1) <= 64 && Text.All(s[dot + 1..], Text.IsAsciiLetter)
  }

  /** What `SELF MATCHES` the e-mail pattern means: the whole string splits as the pattern says. */
  ghost predicate MatchesEmailPattern(s: string) {
    exists at, dot :: EmailSplit(s, at, dot)
  }

  /**
   * `isValidEmail`, as a search: the only possible `@` is the first one,
   * since no part of the pattern but the `@` admits one, and the `.` before
   * the top-level domain is the last `.`, since the domain admits none.
   */
  function IsValidEmail(s: string): bool {
    match Text.IndexOf(s, '@')
    case None => false
    case Some(at) =>
      match Text.LastIndexOf(s[at + 1..], '.')
      case None => false
      case Some(j) => EmailSplit(s, at, at + 1 + j)
  }

  /** The search accepts exactly the strings the pattern matches. */
  lemma EmailCheckIsPattern(s: string)
    ensures IsValidEmail(s) <==> MatchesEmailPattern(s)
  {
    if MatchesEmailPattern(s) {
      var at, dot :| EmailSplit(s, at, dot);
      SplitIsValid(s, at, dot);
    }
  }

  lemma SplitIsValid(s: string, at: int, dot: int)
    requires EmailSplit(s, at, dot)
    ensures IsValidEmail(s)
  {
    SplitIsFound(s, at, dot);
    var j := dot - at - 1;
    assert at + 1 + j == dot;
  }

  lemma SplitIsFound(s: string, at: int, dot: int)
    requires EmailSplit(s, at, dot)
    ensures Text.IndexOf(s, '@') == Some(at)
    ensures Text.LastIndexOf(s[at + 1..], '.') == Some(dot - at - 1)
  {
    var local := s[..at];
    assert '@' !in local by {
      forall k | 0 <= k < |local| ensures local[k] != '@' {
        assert IsLocalChar(local[k]);
      }
    }
    FirstIndex(s, '@', at);
    var rest := s[at + 1..];
    var tld := s[dot + 1..];
    assert rest[dot - at - 1] == '.';
    assert rest[dot - at..] == tld;
    assert '.' !in tld by {
      forall k | 0 <= k < |tld| ensures tld[k] != '.' {
        assert Text.IsAsciiLetter(tld[k]);
      }
    }
    LastIndex(rest, '.', dot - at - 1);
  }

  lemma {:induction false} FirstIndex(s: string, c: char, i: nat)
    requires i < |s| && s[i] == c && c !in s[..i]
    ensures Text.IndexOf(s, c) == Some(i)
  {
    if i > 0 {
      assert s[1..][..i - 1] == s[..i][1..];
      FirstIndex(s[1..], c, i - 1);
    }
  }

  lemma {:induction false} LastIndex(s: string, c: char, i: nat)
    requires i < |s| && s[i] == c && c !in s[i + 1..]
    ensures Text.LastIndexOf(s, c) == Some(i)
    decreases |s|
  {
    if i < |s| - 1 {
      var t := s[..|s| - 1];
      assert s[|s| - 1] in s[i + 1..];
      assert t[i + 1..] == s[i + 1..|s| - 1];
      LastIndex(t, c, i);
    }
  }

  // ---------------------------------------------------------------------
  // The form and its checks

  /** The fields `submit` reads. */
  datatype Form = Form(
    name: Option<string>,
    genderIndex: int,
    dob: Option<string>,
    email: Option<string>,
    phone: Option<string>,
    photo: Option<Image>,
    password: Option<string>,
    confirmPassword: Option<string>)

  /** A name that is not made of whitespace and newlines only. */
  predicate NameGiven(name: Option<string>) {
    name.Some? && !Text.All(name.value, Text.IsWhitespaceOrNewline)
  }

  /** The name check of `submit`: a name, and one that trimming whitespace and newlines leaves non-empty. */
  lemma NameGivenIsTrimmed(name: Option<string>)
    ensures NameGiven(name) <==> name.Some? && Text.Trim(name.value, Text.IsWhitespaceOrNewline) != []
  {
  }

  predicate Filled(field: Option<string>) {
    field.Some? && field.value != []
  }

  /** `CharacterSet.decimalDigits.isSuperset(of: CharacterSet(charactersIn: phone))`. */
  predicate OnlyDigits(phone: string) {
    Text.All(phone, Text.IsAsciiDigit)
  }

  /** The problems `submit` can report, one per message. */
  datatype Issue =
    | PhotoMissing
    | NameMissing
    | GenderMissing
    | DobMissing
    | EmailMalformed
    | EmailMissing
    | PhoneNotNumeric
    | PhoneMissing
    | PasswordWeak
    | PasswordMissing
    | PasswordsDiffer
    | ConfirmMissing

  /** The message `submit` appends for an issue. */
  function Message(issue: Issue): string {
    match issue
    case PhotoMissing => PhotoRequired
    case NameMissing => NameRequired
    case GenderMissing => GenderRequired
    case DobMissing => DobRequired
    case EmailMalformed => InvalidEmail
    case EmailMissing => EmailRequired
    case PhoneNotNumeric => PhoneNotNumericMessage
    case PhoneMissing => PhoneRequired
    case PasswordWeak => PasswordWeakMessage
    case PasswordMissing => PasswordRequired
    case PasswordsDiffer => PasswordsDifferMessage
    case ConfirmMissing => ConfirmRequired
  }

  /** The check of `submit`, numbered 1 to 8, that can report an issue. */
  function Check(issue: Issue): nat {
    match issue
    case PhotoMissing => 1
    case NameMissing => 2
    case GenderMissing => 3
    case DobMissing => 4
    case EmailMalformed | EmailMissing => 5
    case PhoneNotNumeric | PhoneMissing => 6
    case PasswordWeak | PasswordMissing => 7
    case PasswordsDiffer | ConfirmMissing => 8
  }

  /** Different issues have different messages, so a message names its issue. */
  lemma MessageInjective(a: Issue, b: Issue)
    ensures Message(a) == Message(b) <==> a == b
  {
    if a != b {
      var m, n := Message(a), Message(b);
      assert |m| != |n| || m[0] != n[0];
    }
  }

  // One function per check of `submit`: the issue it reports, if any.

  function PhotoIssue(photo: Option<Image>): (r: Option<Issue>)
    ensures r.Some? ==> Check(r.value) == 1
  {
    if photo.None? then Some(PhotoMissing) else None
  }

  function NameIssue(name: Option<string>): (r: Option<Issue>)
    ensures r.Some? ==> Check(r.value) == 2
  {
    if NameGiven(name) then None else Some(NameMissing)
  }

  function GenderIssue(genderIndex: int): (r: Option<Issue>)
    ensures r.Some? ==> Check(r.value) == 3
  {
    if genderIndex == NoGender then Some(GenderMissing) else None
  }

  function DobIssue(dob: Option<string>): (r: Option<Issue>)
    ensures r.Some? ==> Check(r.value) == 4
  {
    if Filled(dob) then None else Some(DobMissing)
  }

  function EmailIssue(email: Option<string>): (r: Option<Issue>)
    ensures r.Some? ==> Check(r.value) == 5
  {
    if Filled(email) then (if IsValidEmail(email.value) then None else Some(EmailMalformed)) else Some(EmailMissing)
  }

  function PhoneIssue(phone: Option<string>): (r: Option<Issue>)
    ensures r.Some? ==> Check(r.value) == 6
  {
    if Filled(phone) then (if OnlyDigits(phone.value) then None else Some(PhoneNotNumeric)) else Some(PhoneMissing)
  }

  function PasswordIssue(password: Option<string>): (r: Option<Issue>)
    ensures r.Some? ==> Check(r.value) == 7
  {
    match password
    case Some(pass) => if IsValidPassword(pass) then None else Some(PasswordWeak)
    case None => Some(PasswordMissing)
  }

  /** A confirmation given without a password is not looked at. */
  function ConfirmIssue(password: Option<string>, confirmPassword: Option<string>): (r: Option<Issue>)
    ensures r.Some? ==> Check(r.value) == 8
  {
    if confirmPassword.Some? && password.Some? then
      (if confirmPassword.value != password.value then Some(PasswordsDiffer) else None)
    else if confirmPassword.None? then Some(ConfirmMissing)
    else None
  }

  /** The outcome of each check of `submit`, field by field. */
  datatype Outcomes = Outcomes(
    photo: Option<Issue>,
    name: Option<Issue>,
    gender: Option<Issue>,
    dob: Option<Issue>,
    email: Option<Issue>,
    phone: Option<Issue>,
    password: Option<Issue>,
    confirm: Option<Issue>)

  /** The outcome of the check that can report `issue`. */
  function OutcomeFor(o: Outcomes, issue: Issue): Option<Issue> {
    match issue
    case PhotoMissing => o.photo
    case NameMissing => o.name
    case GenderMissing => o.gender
    case DobMissing => o.dob
    case EmailMalformed | EmailMissing => o.email
    case PhoneNotNumeric | PhoneMissing => o.phone
    case PasswordWeak | PasswordMissing => o.password
    case PasswordsDiffer | ConfirmMissing => o.confirm
  }

  /** Every outcome that is an issue is one its own check can report. */
  predicate Numbered(o: Outcomes) {
    && (o.photo.Some? ==> Check(o.photo.value) == 1)
    && (o.name.Some? ==> Check(o.name.value) == 2)
    && (o.gender.Some? ==> Check(o.gender.value) == 3)
    && (o.dob.Some? ==> Check(o.dob.value) == 4)
    && (o.email.Some? ==> Check(o.email.value) == 5)
    && (o.phone.Some? ==> Check(o.phone.value) == 6)
    && (o.password.Some? ==> Check(o.password.value) == 7)
    && (o.confirm.Some? ==> Check(o.confirm.value) == 8)
  }

  /** Runs the eight checks on the form. */
  function Evaluate(form: Form): (r: Outcomes)
    ensures Numbered(r)
  {
    Outcomes(PhotoIssue(form.photo), NameIssue(form.name), GenderIssue(form.genderIndex), DobIssue(form.dob),
      EmailIssue(form.email), PhoneIssue(form.phone), PasswordIssue(form.password),
      ConfirmIssue(form.password, form.confirmPassword))
  }

  /** The issue a check found, as a list: empty when it passed. */
  function Found(outcome: Option<Issue>): (r: seq<Issue>)
    ensures |r| <= 1
  {
    if outcome.Some? then [outcome.value] else []
  }

  /** The message a check adds to the error list: none when it passed. */
  function Reported(outcome: Option<Issue>): (r: seq<string>)
    ensures |r| <= 1
  {
    if outcome.Some? then [Message(outcome.value)] else []
  }

  function IssuesOf(o: Outcomes): seq<Issue> {
    Found(o.photo) + Found(o.name) + Found(o.gender) + Found(o.dob)
    + Found(o.email) + Found(o.phone) + Found(o.password) + Found(o.confirm)
  }

  function ErrorsOf(o: Outcomes): seq<string> {
    Reported(o.photo) + Reported(o.name) + Reported(o.gender) + Reported(o.dob)
    + Reported(o.email) + Reported(o.phone) + Reported(o.password) + Reported(o.confirm)
  }

  /** The issues `submit` finds, check by check. */
  function Issues(form: Form): seq<Issue> {
    IssuesOf(Evaluate(form))
  }

  /** The error list `submit` builds, check by check. */
  function ValidationErrors(form: Form): seq<string> {
    ErrorsOf(Evaluate(form))
  }

  /** `errors` lists the messages of `issues`, in the same order. */
  predicate Mirrors(errors: seq<string>, issues: seq<Issue>) {
    |errors| == |issues| && forall i :: 0 <= i < |errors| ==> errors[i] == Message(issues[i])
  }

  lemma MirrorsAppend(errors: seq<string>, issues: seq<Issue>, outcome: Option<Issue>)
    requires Mirrors(errors, issues)
    ensures Mirrors(errors + Reported(outcome), issues + Found(outcome))
  {
  }

  /** Issues listed by strictly increasing check number, all of them below `bound`. */
  predicate OrderedBelow(issues: seq<Issue>, bound: nat) {
    && (forall i :: 0 <= i < |issues| ==> Check(issues[i]) < bound)
    && (forall i, j :: 0 <= i < j < |issues| ==> Check(issues[i]) < Check(issues[j]))
  }

  /** `OrderedBelow`, stated from the last issue backwards. */
  predicate Increasing(issues: seq<Issue>, bound: nat) {
    issues == [] ||
      var last := issues[|issues| - 1];
      Check(last) < bound && Increasing(issues[..|issues| - 1], Check(last))
  }

  lemma {:induction false} IncreasingIsOrdered(issues: seq<Issue>, bound: nat)
    requires Increasing(issues, bound)
    ensures OrderedBelow(issues, bound)
  {
    if issues != [] {
      var n := |issues| - 1;
      var front := issues[..n];
      IncreasingIsOrdered(front, Check(issues[n]));
      assert forall i :: 0 <= i < n ==> issues[i] == front[i];
    }
  }

  lemma AppendCheck(issues: seq<Issue>, outcome: Option<Issue>, check: nat)
    requires Increasing(issues, check)
    requires outcome.Some? ==> Check(outcome.value) == check
    ensures Increasing(issues + Found(outcome), check + 1)
  {
    if outcome.Some? {
      var all := issues + [outcome.value];
      assert all[..|all| - 1] == issues;
    } else {
      assert issues + Found(outcome) == issues;
    }
  }

  /** Whatever the outcomes, the error list holds the messages of the issue list, in order. */
  lemma OutcomesMirrored(o: Outcomes)
    ensures Mirrors(ErrorsOf(o), IssuesOf(o))
  {
    var e, i := Reported(o.photo), Found(o.photo);
    assert Mirrors(e, i);
    MirrorsAppend(e, i, o.name);
    e, i := e + Reported(o.name), i + Found(o.name);
    MirrorsAppend(e, i, o.gender);
    e, i := e + Reported(o.gender), i + Found(o.gender);
    MirrorsAppend(e, i, o.dob);
    e, i := e + Reported(o.dob), i + Found(o.dob);
    MirrorsAppend(e, i, o.email);
    e, i := e + Reported(o.email), i + Found(o.email);
    MirrorsAppend(e, i, o.phone);
    e, i := e + Reported(o.phone), i + Found(o.phone);
    MirrorsAppend(e, i, o.password);
    e, i := e + Reported(o.password), i + Found(o.password);
    MirrorsAppend(e, i, o.confirm);
    e, i := e + Reported(o.confirm), i + Found(o.confirm);
  }

  /** The first four checks give their issues in check order. */
  lemma FirstChecksOrdered(o: Outcomes)
    requires Numbered(o)
    ensures Increasing(Found(o.photo) + Found(o.name) + Found(o.gender) + Found(o.dob), 5)
  {
    var i := Found(o.photo);
    assert Increasing(i, 2) by {
      if o.photo.Some? {
        assert i[..0] == [];
      }
    }
    AppendCheck(i, o.name, 2);
    i := i + Found(o.name);
    AppendCheck(i, o.gender, 3);
    i := i + Found(o.gender);
    AppendCheck(i, o.dob, 4);
  }

  /** The first six checks give their issues in check order. */
  lemma MiddleChecksOrdered(o: Outcomes)
    requires Numbered(o)
    ensures Increasing(Found(o.photo) + Found(o.name) + Found(o.gender) + Found(o.dob) + Found(o.email) + Found(o.phone), 7)
  {
    FirstChecksOrdered(o);
    var i := Found(o.photo) + Found(o.name) + Found(o.gender) + Found(o.dob);
    AppendCheck(i, o.email, 5);
    AppendCheck(i + Found(o.email), o.phone, 6);
  }

  /** Outcomes that are numbered by their check give an issue list in check order. */
  lemma OutcomesOrdered(o: Outcomes)
    requires Numbered(o)
    ensures Increasing(IssuesOf(o), 9)
  {
    MiddleChecksOrdered(o);
    var i := Found(o.photo) + Found(o.name) + Found(o.gender) + Found(o.dob) + Found(o.email) + Found(o.phone);
    AppendCheck(i, o.password, 7);
    AppendCheck(i + Found(o.password), o.confirm, 8);
  }

  /**
   * The error messages come in check order (photo, name, gender, date of
   * birth, e-mail, phone, password, confirmation), at most one per check:
   * message `i` is that of issue `i`, and issue `i` comes from an earlier
   * check than issue `j` when `i < j`.
   */
  lemma ErrorsInCheckOrder(form: Form)
    ensures var errs, issues := ValidationErrors(form), Issues(form);
      && |errs| == |issues| <= 8
      && (forall i :: 0 <= i < |errs| ==> errs[i] == Message(issues[i]))
      && (forall i, j :: 0 <= i < j < |issues| ==> Check(issues[i]) < Check(issues[j]))
  {
    var o := Evaluate(form);
    OutcomesMirrored(o);
    OutcomesOrdered(o);
    IncreasingIsOrdered(IssuesOf(o), 9);
  }

  lemma ReportedMember(outcome: Option<Issue>, issue: Issue)
    ensures Message(issue) in Reported(outcome) <==> outcome == Some(issue)
  {
    if outcome.Some? {
      MessageInjective(issue, outcome.value);
    }
  }

  /** Some check found `issue`. */
  predicate FoundBySome(o: Outcomes, issue: Issue) {
    || o.photo == Some(issue) || o.name == Some(issue) || o.gender == Some(issue) || o.dob == Some(issue)
    || o.email == Some(issue) || o.phone == Some(issue) || o.password == Some(issue) || o.confirm == Some(issue)
  }

  /** The four first checks found `issue`. */
  predicate FoundEarly(o: Outcomes, issue: Issue) {
    o.photo == Some(issue) || o.name == Some(issue) || o.gender == Some(issue) || o.dob == Some(issue)
  }

  /** The four last checks found `issue`. */
  predicate FoundLate(o: Outcomes, issue: Issue) {
    o.email == Some(issue) || o.phone == Some(issue) || o.password == Some(issue) || o.confirm == Some(issue)
  }

  function EarlyErrors(o: Outcomes): seq<string> {
    Reported(o.photo) + Reported(o.name) + Reported(o.gender) + Reported(o.dob)
  }

  function LateErrors(o: Outcomes): seq<string> {
    Reported(o.email) + Reported(o.phone) + Reported(o.password) + Reported(o.confirm)
  }

  lemma ListedEarly(o: Outcomes, issue: Issue)
    ensures Message(issue) in EarlyErrors(o) <==> FoundEarly(o, issue)
  {
    ReportedMember(o.photo, issue);
    ReportedMember(o.name, issue);
    ReportedMember(o.gender, issue);
    ReportedMember(o.dob, issue);
  }

  lemma ListedLate(o: Outcomes, issue: Issue)
    ensures Message(issue) in LateErrors(o) <==> FoundLate(o, issue)
  {
    ReportedMember(o.email, issue);
    ReportedMember(o.phone, issue);
    ReportedMember(o.password, issue);
    ReportedMember(o.confirm, issue);
  }

  /** A message is listed exactly when some check found its issue. */
  lemma ListedIffFound(o: Outcomes, issue: Issue)
    ensures Message(issue) in ErrorsOf(o) <==> FoundBySome(o, issue)
  {
    assert ErrorsOf(o) == EarlyErrors(o) + LateErrors(o);
    ListedEarly(o, issue);
    ListedLate(o, issue);
  }

  /** Only the check an issue belongs to can find it. */
  lemma FoundAtItsCheck(o: Outcomes, issue: Issue)
    requires Numbered(o)
    ensures FoundBySome(o, issue) <==> OutcomeFor(o, issue) == Some(issue)
  {
    match issue
    case PhotoMissing =>
    case NameMissing =>
    case GenderMissing =>
    case DobMissing =>
    case EmailMalformed =>
    case EmailMissing =>
    case PhoneNotNumeric =>
    case PhoneMissing =>
    case PasswordWeak =>
    case PasswordMissing =>
    case PasswordsDiffer =>
    case ConfirmMissing =>
  }

  /** A message is in the error list exactly when its check of the form found its issue. */
  lemma MessageListed(form: Form, issue: Issue)
    ensures Message(issue) in ValidationErrors(form) <==> OutcomeFor(Evaluate(form), issue) == Some(issue)
  {
    ListedIffFound(Evaluate(form), issue);
    FoundAtItsCheck(Evaluate(form), issue);
  }

  /** `submit` reports success exactly when every field passes its check. */
  lemma SubmitSucceedsExactly(form: Form)
    ensures ValidationErrors(form) == [] <==>
      && form.photo.Some?
      && NameGiven(form.name)
      && form.genderIndex != NoGender
      && Filled(form.dob)
      && Filled(form.email) && MatchesEmailPattern(form.email.value)
      && Filled(form.phone) && OnlyDigits(form.phone.value)
      && form.password.Some? && IsValidPassword(form.password.value)
      && form.confirmPassword == form.password
  {
    if Filled(form.email) {
      EmailCheckIsPattern(form.email.value);
    }
  }

  /** A missing name, or one of only whitespace and newlines, is reported. */
  lemma NameRule(form: Form)
    ensures NameRequired in ValidationErrors(form) <==>
      form.name.None? || forall k :: 0 <= k < |form.name.value| ==> Text.IsWhitespaceOrNewline(form.name.value[k])
  {
    MessageListed(form, NameMissing);
    assert Message(NameMissing) == NameRequired;
    assert OutcomeFor(Evaluate(form), NameMissing) == NameIssue(form.name);
  }

  /** A missing or empty e-mail is reported as missing. */
  lemma EmailRequiredRule(form: Form)
    ensures EmailRequired in ValidationErrors(form) <==> !Filled(form.email)
  {
    MessageListed(form, EmailMissing);
    assert Message(EmailMissing) == EmailRequired;
    assert OutcomeFor(Evaluate(form), EmailMissing) == EmailIssue(form.email);
  }

  /** A given e-mail that does not match the pattern is reported as malformed. */
  lemma EmailFormatRule(form: Form)
    ensures InvalidEmail in ValidationErrors(form) <==> Filled(form.email) && !MatchesEmailPattern(form.email.value)
  {
    if Filled(form.email) {
      EmailCheckIsPattern(form.email.value);
    }
    MessageListed(form, EmailMalformed);
    assert Message(EmailMalformed) == InvalidEmail;
    assert OutcomeFor(Evaluate(form), EmailMalformed) == EmailIssue(form.email);
  }

  /** A missing or empty phone number is reported as missing. */
  lemma PhoneRequiredRule(form: Form)
    ensures PhoneRequired in ValidationErrors(form) <==> !Filled(form.phone)
  {
    MessageListed(form, PhoneMissing);
    assert Message(PhoneMissing) == PhoneRequired;
    assert OutcomeFor(Evaluate(form), PhoneMissing) == PhoneIssue(form.phone);
  }

  /** A given phone number with any character other than a decimal digit is reported. */
  lemma PhoneDigitsRule(form: Form)
    ensures PhoneNotNumericMessage in ValidationErrors(form) <==>
      Filled(form.phone) && exists k :: 0 <= k < |form.phone.value| && !Text.IsAsciiDigit(form.phone.value[k])
  {
    MessageListed(form, PhoneNotNumeric);
    assert Message(PhoneNotNumeric) == PhoneNotNumericMessage;
    assert OutcomeFor(Evaluate(form), PhoneNotNumeric) == PhoneIssue(form.phone);
  }

  /**
   * Password and confirmation both given and different is a mismatch; so a
   * confirmation without a password is not compared.
   */
  lemma PasswordsDifferRule(form: Form)
    ensures PasswordsDifferMessage in ValidationErrors(form) <==>
      form.password.Some? && form.confirmPassword.Some? && form.password.value != form.confirmPassword.value
  {
    MessageListed(form, PasswordsDiffer);
    assert Message(PasswordsDiffer) == PasswordsDifferMessage;
    assert OutcomeFor(Evaluate(form), PasswordsDiffer) == ConfirmIssue(form.password, form.confirmPassword);
  }

  /** A missing confirmation is reported, whatever the password. */
  lemma ConfirmRequiredRule(form: Form)
    ensures ConfirmRequired in ValidationErrors(form) <==> form.confirmPassword.None?
  {
    MessageListed(form, ConfirmMissing);
    assert Message(ConfirmMissing) == ConfirmRequired;
    assert OutcomeFor(Evaluate(form), ConfirmMissing) == ConfirmIssue(form.password, form.confirmPassword);
  }

  /** The photo check. */
  lemma PhotoRule(form: Form)
    ensures PhotoRequired in ValidationErrors(form) <==> form.photo.None?
  {
    MessageListed(form, PhotoMissing);
    assert Message(PhotoMissing) == PhotoRequired;
    assert OutcomeFor(Evaluate(form), PhotoMissing) == PhotoIssue(form.photo);
  }

  /** The gender check: nothing selected is reported. */
  lemma GenderRule(form: Form)
    ensures GenderRequired in ValidationErrors(form) <==> form.genderIndex == NoGender
  {
    MessageListed(form, GenderMissing);
    assert Message(GenderMissing) == GenderRequired;
    assert OutcomeFor(Evaluate(form), GenderMissing) == GenderIssue(form.genderIndex);
  }

  /** The date-of-birth check: missing or empty is reported. */
  lemma DobRule(form: Form)
    ensures DobRequired in ValidationErrors(form) <==> !Filled(form.dob)
  {
    MessageListed(form, DobMissing);
    assert Message(DobMissing) == DobRequired;
    assert OutcomeFor(Evaluate(form), DobMissing) == DobIssue(form.dob);
  }

  /** A missing password is reported as missing. */
  lemma PasswordRequiredRule(form: Form)
    ensures PasswordRequired in ValidationErrors(form) <==> form.password.None?
  {
    MessageListed(form, PasswordMissing);
    assert Message(PasswordMissing) == PasswordRequired;
    assert OutcomeFor(Evaluate(form), PasswordMissing) == PasswordIssue(form.password);
  }

  /** A given password that fails the password rule is reported as weak. */
  lemma PasswordStrengthRule(form: Form)
    ensures PasswordWeakMessage in ValidationErrors(form) <==> form.password.Some? && !IsValidPassword(form.password.value)
  {
    MessageListed(form, PasswordWeak);
    assert Message(PasswordWeak) == PasswordWeakMessage;
    assert OutcomeFor(Evaluate(form), PasswordWeak) == PasswordIssue(form.password);
  }

  // ---------------------------------------------------------------------
  // The view model

  class AddUserViewModel {
    var name: Option<string>
    var genderIndex: int
    var dob: Option<string>
    var email: Option<string>
    var phone: Option<string>
    var photo: Option<Image>
    var password: Option<string>
    var confirmPassword: Option<string>

    /** Every field empty and no gender selected. */
    constructor()
      ensures Snapshot() == Form(None, NoGender, None, None, None, None, None, None)
    {
      name := None;
      genderIndex := NoGender;
      dob := None;
      email := None;
      phone := None;
      photo := None;
      password := None;
      confirmPassword := None;
    }

    function Snapshot(): Form
      reads this
    {
      Form(name, genderIndex, dob, email, phone, photo, password, confirmPassword)
    }

    /**
     * `updatePassword`: stores the text as the password, leaving every other
     * field as it was, and reports whether it is valid with the matching
     * message.
     */
    method UpdatePassword(text: string) returns (call: DelegateCall)
      modifies this`password
      ensures Snapshot() == old(Snapshot()).(password := Some(text))
      ensures call == PasswordValidationUpdate(IsValidPassword(text), if IsValidPassword(text) then PasswordMet else PasswordHint)
    {
      password := Some(text);
      if IsValidPassword(text) {
        call := PasswordValidationUpdate(true, PasswordMet);
      } else {
        call := PasswordValidationUpdate(false, PasswordHint);
      }
    }

    /**
     * `submit`: runs the eight checks in order, each appending its message
     * when it fails, and reports success when the list stays empty and the
     * list otherwise.
     */
    method Submit() returns (call: DelegateCall)
      ensures ValidationErrors(Snapshot()) == [] ==> call == ValidationSuccess
      ensures ValidationErrors(Snapshot()) != [] ==> call == ValidationFailure(ValidationErrors(Snapshot()))
    {
      var errors: seq<string> := [];
      errors := CheckPhoto(errors);
      assert errors == Reported(PhotoIssue(photo));
      errors := CheckName(errors);
      errors := CheckGender(errors);
      errors := CheckDob(errors);
      errors := CheckEmail(errors);
      errors := CheckPhone(errors);
      errors := CheckPassword(errors);
      errors := CheckConfirmation(errors);
      assert errors == ValidationErrors(Snapshot());
      if errors == [] {
        call := ValidationSuccess;
      } else {
        call := ValidationFailure(errors);
      }
    }

    /** Check 1: a photo must be chosen. */
    method CheckPhoto(errors: seq<string>) returns (errors': seq<string>)
      ensures errors' == errors + Reported(PhotoIssue(photo))
    {
      errors' := errors;
      if photo == None {
        errors' := errors' + [PhotoRequired];
      }
    }

    /** Check 2: the name, trimmed of whitespace and newlines, must not be empty. */
    method CheckName(errors: seq<string>) returns (errors': seq<string>)
      ensures errors' == errors + Reported(NameIssue(name))
    {
      errors' := errors;
      NameGivenIsTrimmed(name);
      if name.Some? && Text.Trim(name.value, Text.IsWhitespaceOrNewline) != [] {
      } else {
        errors' := errors' + [NameRequired];
      }
    }

    /** Check 3: a gender must be selected. */
    method CheckGender(errors: seq<string>) returns (errors': seq<string>)
      ensures errors' == errors + Reported(GenderIssue(genderIndex))
    {
      errors' := errors;
      if genderIndex == NoGender {
        errors' := errors' + [GenderRequired];
      }
    }

    /** Check 4: the date of birth must not be missing or empty. */
    method CheckDob(errors: seq<string>) returns (errors': seq<string>)
      ensures errors' == errors + Reported(DobIssue(dob))
    {
      errors' := errors;
      if dob.Some? && dob.value != [] {
      } else {
        errors' := errors' + [DobRequired];
      }
    }

    /** Check 5: the e-mail must be given and match the pattern. */
    method CheckEmail(errors: seq<string>) returns (errors': seq<string>)
      ensures errors' == errors + Reported(EmailIssue(email))
    {
      errors' := errors;
      if email.Some? && email.value != [] {
        if !IsValidEmail(email.value) {
          errors' := errors' + [InvalidEmail];
        }
      } else {
        errors' := errors' + [EmailRequired];
      }
    }

    /** Check 6: the phone must be given and consist of decimal digits. */
    method CheckPhone(errors: seq<string>) returns (errors': seq<string>)
      ensures errors' == errors + Reported(PhoneIssue(phone))
    {
      errors' := errors;
      if phone.Some? && phone.value != [] {
        if !OnlyDigits(phone.value) {
          errors' := errors' + [PhoneNotNumericMessage];
        }
      } else {
        errors' := errors' + [PhoneRequired];
      }
    }

    /** Check 7: the password must be given and satisfy the password rule. */
    method CheckPassword(errors: seq<string>) returns (errors': seq<string>)
      ensures errors' == errors + Reported(PasswordIssue(password))
    {
      errors' := errors;
      if password.Some? {
        if !IsValidPassword(password.value) {
          errors' := errors' + [PasswordWeakMessage];
        }
      } else {
        errors' := errors' + [PasswordRequired];
      }
    }

    /** Check 8: a confirmation must be given, and equal the password when there is one. */
    method CheckConfirmation(errors: seq<string>) returns (errors': seq<string>)
      ensures errors' == errors + Reported(ConfirmIssue(password, confirmPassword))
    {
      errors' := errors;
      if confirmPassword.Some? && password.Some? {
        if confirmPassword.value != password.value {
          errors' := errors' + [PasswordsDifferMessage];
        }
      } else if confirmPassword == None {
        errors' := errors' + [ConfirmRequired];
      }
    }
  }

  /** After `updatePassword(text)` the password check of `submit` passes exactly when the reported update was valid. */
  lemma UpdatedPasswordCheck(form: Form, text: string)
    ensures PasswordIssue(form.(password := Some(text)).password).None? <==> IsValidPassword(text)
  {
  }
}
