/**
 * The zod schemas of src/lib/validations.ts. Each field is a chain of
 * checks run in order on the (possibly trimmed) string; every failing
 * check contributes its message, and the object is accepted only when no
 * field reports an issue. The parsed value holds the trimmed strings.
 *
 * The e-mail format test is zod's own regular expression; it is a
 * parameter `isEmail` here.
 */
module Validations {
  import opened Wrappers
  import opened Text

  // ---------------------------------------------------------------------
  // Messages and fields

  /** The messages of the schemas; `Wording` gives each one's wording. */
  datatype Message =
    | InvalidEmail
    | EmailTooLong
    | PasswordTooShort
    | PasswordTooLong
    | PasswordNoUpper
    | PasswordNoLower
    | PasswordNoDigit
    | FullNameRequired
    | FullNameTooLong
    | PasswordRequired
    | TitleRequired
    | TitleTooLong
    | ContentTooLong
    | NameRequired
    | NameTooLong
    | NameBadChars
    | FileContentTooLong
    | ProjectTitleRequired
    | ProjectTitleTooLong
    | CodeTooLong

  function Wording(m: Message): string {
    match m
    case InvalidEmail => "Invalid email address"
    case EmailTooLong => "Email must be less than 255 characters"
    case PasswordTooShort => "Password must be at least 8 characters"
    case PasswordTooLong => "Password must be less than 100 characters"
    case PasswordNoUpper => "Password must contain at least one uppercase letter"
    case PasswordNoLower => "Password must contain at least one lowercase letter"
    case PasswordNoDigit => "Password must contain at least one number"
    case FullNameRequired => "Full name is required"
    case FullNameTooLong => "Full name must be less than 100 characters"
    case PasswordRequired => "Password is required"
    case TitleRequired => "Title is required"
    case TitleTooLong => "Title must be less than 100 characters"
    case ContentTooLong => "Content must be less than 50,000 characters"
    case NameRequired => "Name is required"
    case NameTooLong => "Name must be less than 255 characters"
    case NameBadChars => "Name can only contain letters, numbers, dots, hyphens, and underscores"
    case FileContentTooLong => "File content must be less than 100,000 characters"
    case ProjectTitleRequired => "Project title is required"
    case ProjectTitleTooLong => "Project title must be less than 100 characters"
    case CodeTooLong => "Code must be less than 100,000 characters"
  }

  /** The fields of the schemas; `Key` gives each one's property name. */
  datatype Field = Email | Password | FullName | Title | Content | Name | Code

  function Key(f: Field): string {
    match f
    case Email => "email"
    case Password => "password"
    case FullName => "fullName"
    case Title => "title"
    case Content => "content"
    case Name => "name"
    case Code => "code"
  }

  /**
   * A message's position in its field's check chain. zod runs a field's
   * checks in the order they are chained and reports the failing ones in
   * that order.
   */
  function Rank(m: Message): nat {
    match m
    case InvalidEmail => 0
    case EmailTooLong => 1
    case PasswordTooShort => 0
    case PasswordTooLong => 1
    case PasswordNoUpper => 2
    case PasswordNoLower => 3
    case PasswordNoDigit => 4
    case FullNameRequired => 0
    case FullNameTooLong => 1
    case PasswordRequired => 0
    case TitleRequired => 0
    case TitleTooLong => 1
    case ContentTooLong => 0
    case NameRequired => 0
    case NameTooLong => 1
    case NameBadChars => 2
    case FileContentTooLong => 0
    case ProjectTitleRequired => 0
    case ProjectTitleTooLong => 1
    case CodeTooLong => 0
  }

  /** A field's position in its schema; zod reports the fields' issues in this order. */
  function FieldPos(f: Field): nat {
    match f
    case Email => 0
    case Password => 1
    case FullName => 2
    case Title => 0
    case Content => 1
    case Name => 0
    case Code => 1
  }

  /** The positions of the fields within their schemas, spelled out. */
  lemma FieldPositions()
    ensures FieldPos(Email) == 0 && FieldPos(Password) == 1 && FieldPos(FullName) == 2
    ensures FieldPos(Title) == 0 && FieldPos(Content) == 1 && FieldPos(Name) == 0 && FieldPos(Code) == 1
  {
  }

  /** The message at `i` comes from an earlier check than the one at `j`. */
  predicate RankBefore(ms: seq<Message>, i: nat, j: nat)
    requires i < |ms| && j < |ms|
  {
    Rank(ms[i]) < Rank(ms[j])
  }

  /** The messages are listed in chain order. */
  predicate ChainOrdered(ms: seq<Message>) {
    forall i: nat, j: nat :: i < j < |ms| ==> RankBefore(ms, i, j)
  }

  /** A chain-ordered list followed by one of later checks is chain-ordered. */
  lemma ChainAppend(a: seq<Message>, b: seq<Message>, bound: nat)
    requires ChainOrdered(a) && ChainOrdered(b)
    requires forall x :: x in a ==> Rank(x) < bound
    requires forall y :: y in b ==> bound <= Rank(y)
    ensures ChainOrdered(a + b)
    ensures forall x :: x in a + b ==> x in a || x in b
  {
    forall i: nat, j: nat | i < j < |a + b| ensures RankBefore(a + b, i, j) {
      if j < |a| {
        assert (a + b)[i] == a[i] && (a + b)[j] == a[j];
        assert RankBefore(a, i, j);
      } else if i >= |a| {
        assert (a + b)[i] == b[i - |a|] && (a + b)[j] == b[j - |a|];
        assert RankBefore(b, i - |a|, j - |a|);
      } else {
        assert (a + b)[i] == a[i] && (a + b)[j] == b[j - |a|];
        assert a[i] in a && b[j - |a|] in b;
      }
    }
  }

  // ---------------------------------------------------------------------
  // Single checks

  /** `.min(n, msg)`: fails when the string is shorter than `n`. */
  function MinCheck(s: string, n: nat, msg: Message): (issues: seq<Message>)
    ensures issues == [] <==> |s| >= n
    ensures issues != [] ==> issues == [msg]
  {
    if |s| < n then [msg] else []
  }

  /** `.max(n, msg)`: fails only when the string is longer than `n`, so a length of exactly `n` passes. */
  function MaxCheck(s: string, n: nat, msg: Message): (issues: seq<Message>)
    ensures issues == [] <==> |s| <= n
    ensures issues != [] ==> issues == [msg]
  {
    if |s| > n then [msg] else []
  }

  /** `.regex(re, msg)` or `.email(msg)`, given whether the pattern matches. */
  function PatternCheck(matches: bool, msg: Message): (issues: seq<Message>)
    ensures issues == [] <==> matches
    ensures issues != [] ==> issues == [msg]
  {
    if matches then [] else [msg]
  }

  /** `/[lo-hi]/.test(s)`: some character of `s` lies in the range. */
  predicate HasCharIn(s: string, lo: char, hi: char) {
    exists i :: 0 <= i < |s| && lo <= s[i] <= hi
  }

  /** A character of the class `[a-zA-Z0-9._-]`. */
  predicate IsFileNameChar(c: char) {
    ('a' <= c <= 'z') || ('A' <= c <= 'Z') || ('0' <= c <= '9') || c == '.' || c == '_' || c == '-'
  }

  /** `/^[a-zA-Z0-9._-]+$/.test(s)`: one or more characters, all from the class. */
  predicate MatchesFileNamePattern(s: string) {
    |s| >= 1 && forall i :: 0 <= i < |s| ==> IsFileNameChar(s[i])
  }

  // ---------------------------------------------------------------------
  // Fields: what each accepts, and the messages its chain reports

  /** The e-mail field: trimmed, then a valid address of at most 255 characters. */
  predicate EmailAccepted(email: string, isEmail: string -> bool) {
    isEmail(Trim(email)) && |Trim(email)| <= 255
  }

  function EmailIssues(email: string, isEmail: string -> bool): (issues: seq<Message>)
    ensures issues == [] <==> EmailAccepted(email, isEmail)
    ensures InvalidEmail in issues <==> !isEmail(Trim(email))
    ensures EmailTooLong in issues <==> |Trim(email)| > 255
    ensures ChainOrdered(issues)
    ensures !isEmail(Trim(email)) ==> issues[0] == InvalidEmail
  {
    var t := Trim(email);
    PatternCheck(isEmail(t), InvalidEmail)
    + MaxCheck(t, 255, EmailTooLong)
  }

  /** The sign-up password (not trimmed): 8 to 100 characters with an upper-case letter, a lower-case letter and a digit. */
  predicate SignUpPasswordAccepted(p: string) {
    8 <= |p| <= 100 && HasCharIn(p, 'A', 'Z') && HasCharIn(p, 'a', 'z') && HasCharIn(p, '0', '9')
  }

  function SignUpPasswordIssues(p: string): (issues: seq<Message>)
    ensures issues == [] <==> SignUpPasswordAccepted(p)
    ensures PasswordTooShort in issues <==> |p| < 8
    ensures PasswordTooLong in issues <==> |p| > 100
    ensures PasswordNoUpper in issues <==> !HasCharIn(p, 'A', 'Z')
    ensures PasswordNoLower in issues <==> !HasCharIn(p, 'a', 'z')
    ensures PasswordNoDigit in issues <==> !HasCharIn(p, '0', '9')
    ensures ChainOrdered(issues)
  {
    PasswordChainMembers(p);
    PasswordChainOrdered(p);
    PasswordChain(p)
  }

  /** The five checks of the sign-up password, in the order they are chained. */
  function PasswordChain(p: string): seq<Message> {
    MinCheck(p, 8, PasswordTooShort)
    + MaxCheck(p, 100, PasswordTooLong)
    + PatternCheck(HasCharIn(p, 'A', 'Z'), PasswordNoUpper)
    + PatternCheck(HasCharIn(p, 'a', 'z'), PasswordNoLower)
    + PatternCheck(HasCharIn(p, '0', '9'), PasswordNoDigit)
  }

  /** Each message is reported exactly when its check fails. */
  lemma PasswordChainMembers(p: string)
    ensures PasswordChain(p) == [] <==> SignUpPasswordAccepted(p)
    ensures PasswordTooShort in PasswordChain(p) <==> |p| < 8
    ensures PasswordTooLong in PasswordChain(p) <==> |p| > 100
    ensures PasswordNoUpper in PasswordChain(p) <==> !HasCharIn(p, 'A', 'Z')
    ensures PasswordNoLower in PasswordChain(p) <==> !HasCharIn(p, 'a', 'z')
    ensures PasswordNoDigit in PasswordChain(p) <==> !HasCharIn(p, '0', '9')
  {
  }

  /** The messages come in the order the checks are chained. */
  lemma PasswordChainOrdered(p: string)
    ensures ChainOrdered(PasswordChain(p))
  {
    var short := MinCheck(p, 8, PasswordTooShort);
    var long := MaxCheck(p, 100, PasswordTooLong);
    var upper := PatternCheck(HasCharIn(p, 'A', 'Z'), PasswordNoUpper);
    var lower := PatternCheck(HasCharIn(p, 'a', 'z'), PasswordNoLower);
    var digit := PatternCheck(HasCharIn(p, '0', '9'), PasswordNoDigit);
    ChainAppend(short, long, 1);
    ChainAppend(short + long, upper, 2);
    ChainAppend(short + long + upper, lower, 3);
    ChainAppend(short + long + upper + lower, digit, 4);
  }

  /** The first message reported is that of the first check in the chain that fails. */
  lemma SignUpPasswordFirstIssue(p: string)
    ensures |p| < 8 ==> SignUpPasswordIssues(p)[0] == PasswordTooShort
    ensures |p| > 100 ==> SignUpPasswordIssues(p)[0] == PasswordTooLong
    ensures 8 <= |p| <= 100 && !HasCharIn(p, 'A', 'Z') ==> SignUpPasswordIssues(p)[0] == PasswordNoUpper
    ensures 8 <= |p| <= 100 && HasCharIn(p, 'A', 'Z') && !HasCharIn(p, 'a', 'z') ==>
      SignUpPasswordIssues(p)[0] == PasswordNoLower
    ensures 8 <= |p| <= 100 && HasCharIn(p, 'A', 'Z') && HasCharIn(p, 'a', 'z') && !HasCharIn(p, '0', '9') ==>
      SignUpPasswordIssues(p) == [PasswordNoDigit]
  {
    assert SignUpPasswordIssues(p) == PasswordChain(p);
  }

  /** The sign-in password (not trimmed): 1 to 100 characters of any kind. */
  predicate SignInPasswordAccepted(p: string) {
    1 <= |p| <= 100
  }

  function SignInPasswordIssues(p: string): (issues: seq<Message>)
    ensures issues == [] <==> SignInPasswordAccepted(p)
    ensures PasswordRequired in issues <==> p == []
    ensures PasswordTooLong in issues <==> |p| > 100
    ensures |issues| <= 1
  {
    MinCheck(p, 1, PasswordRequired)
    + MaxCheck(p, 100, PasswordTooLong)
  }

  /** A trimmed, required text of at most 100 characters: the full name, the note title and the project title. */
  predicate TitleAccepted(s: string) {
    1 <= |Trim(s)| <= 100
  }

  function TitleIssues(s: string, required: Message, tooLong: Message): (issues: seq<Message>)
    requires required != tooLong
    ensures issues == [] <==> TitleAccepted(s)
    ensures required in issues <==> IsBlank(s)
    ensures tooLong in issues <==> |Trim(s)| > 100
    ensures |issues| <= 1 && ChainOrdered(issues)
  {
    var t := Trim(s);
    MinCheck(t, 1, required) + MaxCheck(t, 100, tooLong)
  }

  /** The note content: trimmed, at most 50000 characters, and may be absent. */
  predicate NoteContentAccepted(content: Option<string>) {
    content.None? || |Trim(content.value)| <= 50000
  }

  function NoteContentIssues(content: Option<string>): (issues: seq<Message>)
    ensures issues == [] <==> NoteContentAccepted(content)
    ensures issues != [] ==> issues == [ContentTooLong]
  {
    match content
    case None => []
    case Some(c) => MaxCheck(Trim(c), 50000, ContentTooLong)
  }

  /** The file-node name: trimmed, 1 to 255 characters, all letters, digits, dots, hyphens or underscores. */
  predicate FileNameAccepted(name: string) {
    var t := Trim(name);
    1 <= |t| <= 255 && MatchesFileNamePattern(t)
  }

  function FileNameIssues(name: string): (issues: seq<Message>)
    ensures issues == [] <==> FileNameAccepted(name)
    ensures NameRequired in issues <==> IsBlank(name)
    ensures NameTooLong in issues <==> |Trim(name)| > 255
    ensures NameBadChars in issues
      <==> !MatchesFileNamePattern(Trim(name))
    ensures ChainOrdered(issues)
    ensures IsBlank(name) ==> issues == [NameRequired, NameBadChars]
  {
    var t := Trim(name);
    MinCheck(t, 1, NameRequired)
    + MaxCheck(t, 255, NameTooLong)
    + PatternCheck(MatchesFileNamePattern(t), NameBadChars)
  }

  /** File content and project code: not trimmed, at most 100000 characters; `optional` lets file content be absent. */
  predicate CodeAccepted(code: Option<string>) {
    code.None? || |code.value| <= 100000
  }

  function CodeIssues(code: Option<string>, tooLong: Message): (issues: seq<Message>)
    ensures issues == [] <==> CodeAccepted(code)
    ensures issues != [] ==> issues == [tooLong]
  {
    match code
    case None => []
    case Some(c) => MaxCheck(c, 100000, tooLong)
  }

  // ---------------------------------------------------------------------
  // Schemas

  /** An issue: the field it belongs to and its message. */
  datatype Issue = Issue(path: Field, message: Message)

  /** The messages of one field, tagged with the field's name, in order. */
  function Tag(path: Field, messages: seq<Message>): (r: seq<Issue>)
    ensures |r| == |messages|
    ensures forall i :: 0 <= i < |r| ==> r[i] == Issue(path, messages[i])
    ensures forall x :: x in r ==> x.path == path
    ensures forall m :: Issue(path, m) in r <==> m in messages
  {
    var r := seq(|messages|, i requires 0 <= i < |messages| => Issue(path, messages[i]));
    assert forall m :: m in messages ==> Issue(path, m) in r by {
      forall m | m in messages ensures Issue(path, m) in r {
        var i :| 0 <= i < |messages| && messages[i] == m;
        assert r[i] == Issue(path, m);
      }
    }
    r
  }

  /** `x` is reported before `y`: an earlier field, or the same field and an earlier check. */
  predicate Before(x: Issue, y: Issue) {
    FieldPos(x.path) < FieldPos(y.path) || (x.path == y.path && Rank(x.message) < Rank(y.message))
  }

  /** The issue at `i` is reported before the one at `j`. */
  predicate InOrder(r: seq<Issue>, i: nat, j: nat)
    requires i < |r| && j < |r|
  {
    Before(r[i], r[j])
  }

  /** The issues are listed field by field in schema order, and within a field in chain order. */
  predicate IssuesOrdered(r: seq<Issue>) {
    forall i: nat, j: nat :: i < j < |r| ==> InOrder(r, i, j)
  }

  /** Tagging a chain-ordered list of messages gives an ordered list of issues. */
  lemma TagOrdered(path: Field, ms: seq<Message>)
    requires ChainOrdered(ms)
    ensures IssuesOrdered(Tag(path, ms))
  {
    forall i: nat, j: nat | i < j < |ms| ensures InOrder(Tag(path, ms), i, j) {
      assert RankBefore(ms, i, j);
    }
  }

  /** Ordered issues of earlier fields, followed by ordered issues of later fields, are ordered. */
  lemma OrderedAppend(a: seq<Issue>, b: seq<Issue>, bound: nat)
    requires IssuesOrdered(a) && IssuesOrdered(b)
    requires forall x :: x in a ==> FieldPos(x.path) < bound
    requires forall y :: y in b ==> bound <= FieldPos(y.path)
    ensures IssuesOrdered(a + b)
  {
    forall i: nat, j: nat | i < j < |a + b| ensures InOrder(a + b, i, j) {
      if j < |a| {
        assert (a + b)[i] == a[i] && (a + b)[j] == a[j];
        assert InOrder(a, i, j);
      } else if i >= |a| {
        assert (a + b)[i] == b[i - |a|] && (a + b)[j] == b[j - |a|];
        assert InOrder(b, i - |a|, j - |a|);
      } else {
        assert (a + b)[i] == a[i] && (a + b)[j] == b[j - |a|];
        assert a[i] in a && b[j - |a|] in b;
      }
    }
  }

  /** The issues of two fields, in field order: none exactly when neither field has a message. */
  function Issues2(p1: Field, m1: seq<Message>, p2: Field, m2: seq<Message>): (r: seq<Issue>)
    requires p1 != p2
    ensures r == [] <==> m1 == [] && m2 == []
    ensures forall x :: x in r ==> x.path == p1 || x.path == p2
    ensures forall m :: Issue(p1, m) in r <==> m in m1
    ensures forall m :: Issue(p2, m) in r <==> m in m2
    ensures m1 != [] ==> r[0] == Issue(p1, m1[0])
    ensures m1 == [] && m2 != [] ==> r[0] == Issue(p2, m2[0])
  {
    Tag(p1, m1) + Tag(p2, m2)
  }

  /** When the first field has no message and the second has one, that is the only issue. */
  lemma Issues2SecondOnly(p1: Field, m1: seq<Message>, p2: Field, m2: seq<Message>)
    requires p1 != p2
    ensures m1 == [] && |m2| == 1 ==> Issues2(p1, m1, p2, m2) == [Issue(p2, m2[0])]
  {
    if m1 == [] && |m2| == 1 {
      assert Tag(p1, m1) == [];
      assert Tag(p2, m2) == [Issue(p2, m2[0])];
    }
  }

  /** Two fields in schema order, each with chain-ordered messages, give ordered issues. */
  lemma Issues2Ordered(p1: Field, m1: seq<Message>, p2: Field, m2: seq<Message>)
    requires ChainOrdered(m1) && ChainOrdered(m2) && FieldPos(p1) < FieldPos(p2)
    ensures IssuesOrdered(Issues2(p1, m1, p2, m2))
  {
    TagOrdered(p1, m1);
    TagOrdered(p2, m2);
    OrderedAppend(Tag(p1, m1), Tag(p2, m2), FieldPos(p2));
  }

  /** The issues of three fields, in field order. */
  function Issues3(p1: Field, m1: seq<Message>, p2: Field, m2: seq<Message>, p3: Field, m3: seq<Message>): (r: seq<Issue>)
    requires p1 != p2 && p1 != p3 && p2 != p3
    ensures r == [] <==> m1 == [] && m2 == [] && m3 == []
    ensures forall x :: x in r ==> x.path == p1 || x.path == p2 || x.path == p3
    ensures forall m :: Issue(p1, m) in r <==> m in m1
    ensures forall m :: Issue(p2, m) in r <==> m in m2
    ensures forall m :: Issue(p3, m) in r <==> m in m3
    ensures m1 != [] ==> r[0] == Issue(p1, m1[0])
    ensures m1 == [] && m2 != [] ==> r[0] == Issue(p2, m2[0])
    ensures m1 == [] && m2 == [] && m3 != [] ==> r[0] == Issue(p3, m3[0])
  {
    Issues2(p1, m1, p2, m2) + Tag(p3, m3)
  }

  /** Three fields in schema order, each with chain-ordered messages, give ordered issues. */
  lemma Issues3Ordered(p1: Field, m1: seq<Message>, p2: Field, m2: seq<Message>, p3: Field, m3: seq<Message>)
    requires ChainOrdered(m1) && ChainOrdered(m2) && ChainOrdered(m3)
    requires FieldPos(p1) < FieldPos(p2) < FieldPos(p3)
    ensures IssuesOrdered(Issues3(p1, m1, p2, m2, p3, m3))
  {
    Issues2Ordered(p1, m1, p2, m2);
    TagOrdered(p3, m3);
    OrderedAppend(Issues2(p1, m1, p2, m2), Tag(p3, m3), FieldPos(p3));
  }

  datatype SignUpForm = SignUpForm(email: string, password: string, fullName: string)
  datatype SignInForm = SignInForm(email: string, password: string)
  datatype NoteForm = NoteForm(title: string, content: Option<string>)
  datatype FileNodeForm = FileNodeForm(name: string, content: Option<string>)
  datatype ProjectForm = ProjectForm(title: string, code: string)

  /** `signUpSchema.safeParse`. */
  function ParseSignUp(input: SignUpForm, isEmail: string -> bool): (r: Result<SignUpForm, seq<Issue>>)
    ensures r.Ok? <==>
      EmailAccepted(input.email, isEmail) && SignUpPasswordAccepted(input.password) && TitleAccepted(input.fullName)
    ensures r.Ok? ==> r.value == SignUpForm(Trim(input.email), input.password, Trim(input.fullName))
    ensures r.Err? ==> r.error != [] && forall x :: x in r.error ==> x.path == Email || x.path == Password || x.path == FullName
    ensures r.Err? ==> forall m :: Issue(Email, m) in r.error <==> m in EmailIssues(input.email, isEmail)
    ensures r.Err? ==> forall m :: Issue(Password, m) in r.error <==> m in SignUpPasswordIssues(input.password)
    ensures r.Err? ==> forall m :: Issue(FullName, m) in r.error <==> m in TitleIssues(input.fullName, FullNameRequired, FullNameTooLong)
    // fields in schema order, each field's messages in chain order; Auth.tsx shows the first
    ensures r.Err? ==> IssuesOrdered(r.error)
    ensures !EmailAccepted(input.email, isEmail) ==>
      r.Err? && r.error[0] == Issue(Email, EmailIssues(input.email, isEmail)[0])
    ensures EmailAccepted(input.email, isEmail) && !SignUpPasswordAccepted(input.password) ==>
      r.Err? && r.error[0] == Issue(Password, SignUpPasswordIssues(input.password)[0])
    ensures EmailAccepted(input.email, isEmail) && SignUpPasswordAccepted(input.password) && !TitleAccepted(input.fullName) ==>
      r.Err? && r.error[0] == Issue(FullName, TitleIssues(input.fullName, FullNameRequired, FullNameTooLong)[0])
  {
    SignUpFieldsOrdered(input.email, input.password, input.fullName, isEmail);
    var email := EmailIssues(input.email, isEmail);
    var password := SignUpPasswordIssues(input.password);
    var fullName := TitleIssues(input.fullName, FullNameRequired, FullNameTooLong);
    var issues := Issues3(Email, email, Password, password, FullName, fullName);
    if issues == [] then Ok(SignUpForm(Trim(input.email), input.password, Trim(input.fullName)))
    else Err(issues)
  }

  /** `signInSchema.safeParse`. */
  function ParseSignIn(input: SignInForm, isEmail: string -> bool): (r: Result<SignInForm, seq<Issue>>)
    ensures r.Ok? <==> EmailAccepted(input.email, isEmail) && SignInPasswordAccepted(input.password)
    ensures r.Ok? ==> r.value == SignInForm(Trim(input.email), input.password)
    ensures r.Err? ==> r.error != [] && forall x :: x in r.error ==> x.path == Email || x.path == Password
    ensures r.Err? ==> forall m :: Issue(Email, m) in r.error <==> m in EmailIssues(input.email, isEmail)
    ensures r.Err? ==> forall m :: Issue(Password, m) in r.error <==> m in SignInPasswordIssues(input.password)
    ensures r.Err? ==> IssuesOrdered(r.error)
    ensures !EmailAccepted(input.email, isEmail) ==>
      r.Err? && r.error[0] == Issue(Email, EmailIssues(input.email, isEmail)[0])
    ensures EmailAccepted(input.email, isEmail) && !SignInPasswordAccepted(input.password) ==>
      r == Err([Issue(Password, SignInPasswordIssues(input.password)[0])])
  {
    var email := EmailIssues(input.email, isEmail);
    var password := SignInPasswordIssues(input.password);
    FieldPositions();
    Issues2Ordered(Email, email, Password, password);
    Issues2SecondOnly(Email, email, Password, password);
    var issues := Issues2(Email, email, Password, password);
    if issues == [] then Ok(SignInForm(Trim(input.email), input.password))
    else Err(issues)
  }

  /** The trimmed form of an optional string. */
  function TrimOption(s: Option<string>): Option<string> {
    match s
    case None => None
    case Some(v) => Some(Trim(v))
  }

  /** `noteSchema.safeParse`. */
  function ParseNote(input: NoteForm): (r: Result<NoteForm, seq<Issue>>)
    ensures r.Ok? <==> TitleAccepted(input.title) && NoteContentAccepted(input.content)
    ensures r.Ok? ==> r.value == NoteForm(Trim(input.title), TrimOption(input.content))
    ensures r.Err? ==> r.error != [] && forall x :: x in r.error ==> x.path == Title || x.path == Content
    ensures r.Err? ==> forall m :: Issue(Title, m) in r.error <==> m in TitleIssues(input.title, TitleRequired, TitleTooLong)
    ensures r.Err? ==> forall m :: Issue(Content, m) in r.error <==> m in NoteContentIssues(input.content)
  {
    var title := TitleIssues(input.title, TitleRequired, TitleTooLong);
    var content := NoteContentIssues(input.content);
    var issues := Issues2(Title, title, Content, content);
    if issues == [] then Ok(NoteForm(Trim(input.title), TrimOption(input.content)))
    else Err(issues)
  }

  /** `fileNodeSchema.safeParse`. */
  function ParseFileNode(input: FileNodeForm): (r: Result<FileNodeForm, seq<Issue>>)
    ensures r.Ok? <==> FileNameAccepted(input.name) && CodeAccepted(input.content)
    ensures r.Ok? ==> r.value == FileNodeForm(Trim(input.name), input.content)
    ensures r.Err? ==> r.error != [] && forall x :: x in r.error ==> x.path == Name || x.path == Content
    ensures r.Err? ==> forall m :: Issue(Name, m) in r.error <==> m in FileNameIssues(input.name)
    ensures r.Err? ==> forall m :: Issue(Content, m) in r.error <==> m in CodeIssues(input.content, FileContentTooLong)
  {
    var name := FileNameIssues(input.name);
    var content := CodeIssues(input.content, FileContentTooLong);
    var issues := Issues2(Name, name, Content, content);
    if issues == [] then Ok(FileNodeForm(Trim(input.name), input.content))
    else Err(issues)
  }

  /** `projectSchema.safeParse`. */
  function ParseProject(input: ProjectForm): (r: Result<ProjectForm, seq<Issue>>)
    ensures r.Ok? <==> TitleAccepted(input.title) && CodeAccepted(Some(input.code))
    ensures r.Ok? ==> r.value == ProjectForm(Trim(input.title), input.code)
    ensures r.Err? ==> r.error != [] && forall x :: x in r.error ==> x.path == Title || x.path == Code
    ensures r.Err? ==> forall m :: Issue(Title, m) in r.error <==> m in TitleIssues(input.title, ProjectTitleRequired, ProjectTitleTooLong)
    ensures r.Err? ==> forall m :: Issue(Code, m) in r.error <==> m in CodeIssues(Some(input.code), CodeTooLong)
  {
    var title := TitleIssues(input.title, ProjectTitleRequired, ProjectTitleTooLong);
    var code := CodeIssues(Some(input.code), CodeTooLong);
    var issues := Issues2(Title, title, Code, code);
    if issues == [] then Ok(ProjectForm(Trim(input.title), input.code))
    else Err(issues)
  }

  /** The sign-up fields' issues, each field's in chain order, come in schema order. */
  lemma SignUpFieldsOrdered(email: string, password: string, fullName: string, isEmail: string -> bool)
    ensures IssuesOrdered(Issues3(Email, EmailIssues(email, isEmail), Password, SignUpPasswordIssues(password),
      FullName, TitleIssues(fullName, FullNameRequired, FullNameTooLong)))
  {
    var m1 := EmailIssues(email, isEmail);
    var m2 := SignUpPasswordIssues(password);
    var m3 := TitleIssues(fullName, FullNameRequired, FullNameTooLong);
    FieldPositions();
    Issues3Ordered(Email, m1, Password, m2, FullName, m3);
  }

  /** A failed note lists the title's issue before the content's. */
  lemma ParseNoteOrdered(note: NoteForm)
    ensures ParseNote(note).Err? ==> IssuesOrdered(ParseNote(note).error)
    ensures !TitleAccepted(note.title) ==>
      ParseNote(note).Err? && ParseNote(note).error[0] == Issue(Title, TitleIssues(note.title, TitleRequired, TitleTooLong)[0])
  {
    FieldPositions();
    Issues2Ordered(Title, TitleIssues(note.title, TitleRequired, TitleTooLong), Content, NoteContentIssues(note.content));
  }

  /** A failed file lists the name's issues, in chain order, before the content's. */
  lemma ParseFileNodeOrdered(file: FileNodeForm)
    ensures ParseFileNode(file).Err? ==> IssuesOrdered(ParseFileNode(file).error)
    ensures !FileNameAccepted(file.name) ==>
      ParseFileNode(file).Err? && ParseFileNode(file).error[0] == Issue(Name, FileNameIssues(file.name)[0])
  {
    FieldPositions();
    Issues2Ordered(Name, FileNameIssues(file.name), Content, CodeIssues(file.content, FileContentTooLong));
  }

  /** A failed project lists the title's issue before the code's. */
  lemma ParseProjectOrdered(project: ProjectForm)
    ensures ParseProject(project).Err? ==> IssuesOrdered(ParseProject(project).error)
    ensures !TitleAccepted(project.title) ==>
      ParseProject(project).Err?
      && ParseProject(project).error[0] == Issue(Title, TitleIssues(project.title, ProjectTitleRequired, ProjectTitleTooLong)[0])
  {
    FieldPositions();
    Issues2Ordered(Title, TitleIssues(project.title, ProjectTitleRequired, ProjectTitleTooLong),
      Code, CodeIssues(Some(project.code), CodeTooLong));
  }

  /** The password "abc" fails the length, upper-case and digit checks, in that order. */
  lemma AbcPasswordIssues()
    ensures SignUpPasswordIssues("abc") == [PasswordTooShort, PasswordNoUpper, PasswordNoDigit]
  {
    var p := "abc";
    assert !HasCharIn(p, 'A', 'Z') && HasCharIn(p, 'a', 'z') && !HasCharIn(p, '0', '9') by {
      assert 'a' <= p[0] <= 'z';
    }
    assert MinCheck(p, 8, PasswordTooShort) == [PasswordTooShort];
    assert MaxCheck(p, 100, PasswordTooLong) == [];
    assert PasswordChain(p) == [PasswordTooShort] + [] + [PasswordNoUpper] + [] + [PasswordNoDigit];
  }

  /**
   * A well-formed e-mail with the password "abc" and a name is refused, and the message shown is
   * the password's length check, before its missing upper-case letter and digit.
   */
  lemma ShortPasswordShownFirst(email: string, fullName: string, isEmail: string -> bool)
    requires EmailAccepted(email, isEmail) && TitleAccepted(fullName)
    ensures ParseSignUp(SignUpForm(email, "abc", fullName), isEmail).Err?
    ensures ParseSignUp(SignUpForm(email, "abc", fullName), isEmail).error[0] == Issue(Password, PasswordTooShort)
    ensures Wording(ParseSignUp(SignUpForm(email, "abc", fullName), isEmail).error[0].message)
      == "Password must be at least 8 characters"
  {
    SignUpPasswordFirstIssue("abc");
  }

  // ---------------------------------------------------------------------
  // Properties

  /** Every password accepted at sign-up is also accepted at sign-in. */
  lemma SignUpPasswordSignsIn(p: string)
    requires SignUpPasswordAccepted(p)
    ensures SignInPasswordAccepted(p)
  {
  }

  /** A whitespace-only title, name or full name is rejected as missing. */
  lemma BlankTitleRejected(s: string)
    requires IsBlank(s)
    ensures !TitleAccepted(s)
    ensures !FileNameAccepted(s)
  {
  }

  /** Trimming happens before the length checks: surrounding whitespace does not count towards the 100-character limit. */
  lemma PaddingNotCounted(pre: string, s: string, post: string)
    requires IsBlank(pre) && IsBlank(post) && TitleAccepted(s)
    ensures TitleAccepted(pre + s + post)
  {
    TrimPadded(pre, s, post);
  }

  /** The bounds are inclusive despite the "less than" messages: exactly 100, 255 and 100000 characters pass. */
  lemma UpperBoundsInclusive(title: string, name: string, code: string)
    requires |title| == 100 && !IsSpace(title[0]) && !IsSpace(title[99])
    requires |name| == 255 && MatchesFileNamePattern(name)
    requires |code| == 100000
    ensures TitleAccepted(title)
    ensures FileNameAccepted(name)
    ensures CodeAccepted(Some(code))
  {
    TrimUnpadded(title);
    assert !IsSpace(name[0]) && !IsSpace(name[254]) by {
      assert IsFileNameChar(name[0]) && IsFileNameChar(name[254]);
    }
    TrimUnpadded(name);
  }

  /** One character more is rejected. */
  lemma UpperBoundsExceeded(title: string, name: string, code: string)
    requires |title| == 101 && !IsSpace(title[0]) && !IsSpace(title[100])
    requires |name| == 256 && !IsSpace(name[0]) && !IsSpace(name[255])
    requires |code| == 100001
    ensures !TitleAccepted(title)
    ensures !FileNameAccepted(name)
    ensures !CodeAccepted(Some(code))
  {
    TrimUnpadded(title);
    TrimUnpadded(name);
  }

  /** A space left after trimming is an interior space, and the file-name pattern rejects it. */
  lemma InteriorSpaceRejected(name: string)
    requires ' ' in Trim(name)
    ensures !FileNameAccepted(name)
    ensures NameBadChars in FileNameIssues(name)
  {
    var t := Trim(name);
    var i :| 0 <= i < |t| && t[i] == ' ';
    assert !IsFileNameChar(t[i]);
  }

  /** The trimmed values the parsers return parse again to themselves: trimming a second time changes nothing. */
  lemma ParseNoteStable(input: NoteForm)
    requires ParseNote(input).Ok?
    ensures ParseNote(ParseNote(input).value) == ParseNote(input)
  {
    TrimIdempotent(input.title);
    if input.content.Some? {
      TrimIdempotent(input.content.value);
    }
  }

  lemma ParseSignUpStable(input: SignUpForm, isEmail: string -> bool)
    requires ParseSignUp(input, isEmail).Ok?
    ensures ParseSignUp(ParseSignUp(input, isEmail).value, isEmail) == ParseSignUp(input, isEmail)
  {
    TrimIdempotent(input.email);
    TrimIdempotent(input.fullName);
  }

  lemma ParseFileNodeStable(input: FileNodeForm)
    requires ParseFileNode(input).Ok?
    ensures ParseFileNode(ParseFileNode(input).value) == ParseFileNode(input)
  {
    TrimIdempotent(input.name);
  }
}
