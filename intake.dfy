/** The candidate intake form: which submissions are accepted, the email
    pattern they must match, and how the comma-separated tech stack becomes
    the ordered list of technologies to assess. */
module Intake {
  import opened Text

  /** One submission of the intake form, field by field. */
  datatype Form = Form(
    fullName: string,
    email: string,
    phoneNumber: string,
    yearsExperience: int,
    desiredPositions: seq<string>,
    currentLocation: string,
    techStack: string)

  predicate IsAsciiLetter(c: char) { 'a' <= c <= 'z' || 'A' <= c <= 'Z' }

  predicate IsDigit(c: char) { '0' <= c <= '9' }

  /** The class `[a-zA-Z0-9._%+-]` */
  predicate IsLocalChar(c: char) {
    IsAsciiLetter(c) || IsDigit(c) || c == '.' || c == '_' || c == '%' || c == '+' || c == '-'
  }

  /** The class `[a-zA-Z0-9.-]` */
  predicate IsDomainChar(c: char) {
    IsAsciiLetter(c) || IsDigit(c) || c == '.' || c == '-'
  }

  predicate AllLocal(s: string) { forall i :: 0 <= i < |s| ==> IsLocalChar(s[i]) }

  predicate AllDomain(s: string) { forall i :: 0 <= i < |s| ==> IsDomainChar(s[i]) }

  predicate AllLetters(s: string) { forall i :: 0 <= i < |s| ==> IsAsciiLetter(s[i]) }

  /** `s` reads as local-part `@` domain `.` top-level-domain, with the '@' at
      index `at` and the last '.' at index `dot`: one or more local characters,
      one or more domain characters, two or more letters. */
  ghost predicate EmailShapeAt(s: string, at: int, dot: int) {
    0 < at && at + 1 < dot && dot + 2 < |s|
    && s[at] == '@' && s[dot] == '.'
    && AllLocal(s[..at]) && AllDomain(s[at + 1..dot]) && AllLetters(s[dot + 1..])
  }

  /** A whole-string match of `[a-zA-Z0-9._%+-]+@[a-zA-Z0-9.-]+\.[a-zA-Z]{2,}`. */
  ghost predicate EmailShape(s: string) {
    exists at, dot :: EmailShapeAt(s, at, dot)
  }

  /** What `re.match` accepts for the anchored pattern: `$` also matches just
      before one final newline. */
  ghost predicate MatchesEmailPattern(s: string) {
    EmailShape(s) || (s != [] && s[|s| - 1] == '\n' && EmailShape(s[..|s| - 1]))
  }

  /** The first index of `c` in `s`. */
  function IndexOf(s: string, c: char): (r: Option<nat>)
    ensures r.Some? ==> r.value < |s| && s[r.value] == c && c !in s[..r.value]
    ensures r.None? ==> c !in s
  {
    if s == [] then None
    else if s[0] == c then Some(0)
    else match IndexOf(s[1..], c)
      case None => None
      case Some(i) =>
        assert s[..i + 1] == [s[0]] + s[1..][..i];
        Some(i + 1)
  }

  /** The last index of `c` in `s`. */
  function LastIndexOf(s: string, c: char): (r: Option<nat>)
    ensures r.Some? ==> r.value < |s| && s[r.value] == c && c !in s[r.value + 1..]
    ensures r.None? ==> c !in s
  {
    if s == [] then None
    else if s[|s| - 1] == c then Some(|s| - 1)
    else
      var r := LastIndexOf(s[..|s| - 1], c);
      assert r.Some? ==> s[r.value + 1..] == s[..|s| - 1][r.value + 1..] + [s[|s| - 1]];
      assert s == s[..|s| - 1] + [s[|s| - 1]];
      r
  }

  /** The shape test without the anchor quirk: the '@' is the first one and
      the top-level domain starts after the last '.', since neither the local
      part nor the domain admits an '@' and the top-level domain admits no '.'. */
  function HasEmailShape(s: string): bool {
    match IndexOf(s, '@')
    case None => false
    case Some(at) =>
      match LastIndexOf(s, '.')
      case None => false
      case Some(dot) =>
        0 < at && at + 1 < dot && dot + 2 < |s|
        && AllLocal(s[..at]) && AllDomain(s[at + 1..dot]) && AllLetters(s[dot + 1..])
  }

  /** The shape test accepts exactly the strings of the pattern's shape. */
  lemma HasEmailShapeIff(s: string)
    ensures HasEmailShape(s) <==> EmailShape(s)
  {
    if HasEmailShape(s) {
      var at := IndexOf(s, '@').value;
      var dot := LastIndexOf(s, '.').value;
      assert EmailShapeAt(s, at, dot);
    }
    if EmailShape(s) {
      var at, dot :| EmailShapeAt(s, at, dot);
      assert IndexOf(s, '@') == Some(at);
      assert LastIndexOf(s, '.') == Some(dot);
    }
  }

  /** `_validate_email` */
  function IsValidEmail(s: string): (ok: bool)
    ensures ok <==> MatchesEmailPattern(s)
  {
    HasEmailShapeIff(s);
    if s != [] && s[|s| - 1] == '\n' then
      HasEmailShapeIff(s[..|s| - 1]);
      HasEmailShape(s) || HasEmailShape(s[..|s| - 1])
    else HasEmailShape(s)
  }

  /** `_validate_form`: every text field must be non-empty (emptiness, not
      blankness: Python's `all` on strings), at least one desired position must
      be chosen, and the email must match the pattern. Years of experience is
      not checked. */
  function ValidateForm(f: Form): (ok: bool)
    ensures ok <==> f.fullName != "" && f.email != "" && f.phoneNumber != ""
                    && f.currentLocation != "" && f.techStack != ""
                    && f.desiredPositions != []
                    && MatchesEmailPattern(f.email)
  {
    if f.fullName == "" || f.email == "" || f.phoneNumber == ""
       || f.currentLocation == "" || f.techStack == "" then false
    else if f.desiredPositions == [] then false
    else IsValidEmail(f.email)
  }

  /** The tech-stack list saved by `_save_candidate_data`: the comma-separated
      segments, each stripped, empty ones dropped. */
  function ParseTechStack(raw: string): (stack: seq<string>)
    ensures forall k :: 0 <= k < |stack| ==> stack[k] != "" && IsTrimmed(stack[k]) && ',' !in stack[k]
  {
    SplitStrip(raw, ',')
  }

  /** A segment with no comma contributes its stripped self, or nothing if blank. */
  lemma ParseTechStackSegment(seg: string)
    requires ',' !in seg
    ensures ParseTechStack(seg) == if Strip(seg) == "" then [] else [Strip(seg)]
  {
    SplitStripSegment(seg, ',');
  }

  /** Parsing respects the commas: the entries before a comma come first, in order. */
  lemma ParseTechStackAround(a: string, b: string)
    ensures ParseTechStack(a + "," + b) == ParseTechStack(a) + ParseTechStack(b)
  {
    SplitStripAround(a, b, ',');
  }

  /** Validation only tests for the empty string, so a tech stack made of a
      comma and blanks is accepted and yields no technologies at all. */
  lemma BlankTechStackAccepted(f: Form)
    requires ValidateForm(f)
    ensures ValidateForm(f.(techStack := " , "))
    ensures ParseTechStack(" , ") == []
  {
    ParseTechStackAround(" ", " ");
    ParseTechStackSegment(" ");
  }

  lemma EmailExamples()
    ensures IsValidEmail("a@b.co")
    ensures !IsValidEmail("not-an-email") && !IsValidEmail("a@b") && !IsValidEmail("")
  {
    ValidEmailExample();
    assert '@' !in "not-an-email";
    assert '.' !in "a@b";
  }

  lemma ValidEmailExample()
    ensures EmailShape("a@b.co")
  {
    var ok := "a@b.co";
    assert EmailShapeAt(ok, 1, 3) by {
      assert ok[..1] == "a" && ok[2..3] == "b" && ok[4..] == "co";
    }
  }

  /** The anchor also lets one trailing newline through. */
  lemma TrailingNewlineAccepted(s: string)
    requires IsValidEmail(s) && (s == [] || s[|s| - 1] != '\n')
    ensures IsValidEmail(s + "\n")
  {
    assert (s + "\n")[..|s|] == s;
  }

  lemma StripExamples()
    ensures Strip("Python") == "Python" && Strip(" JavaScript") == "JavaScript"
    ensures Strip("  ") == "" && Strip(" React") == "React"
  {
    StripTrimmed("Python");
    StripJavaScript();
    StripReact();
    StripEmptyIffBlank("  ");
  }

  lemma StripJavaScript()
    ensures Strip(" JavaScript") == "JavaScript"
  {
    assert " JavaScript" == [' '] + "JavaScript";
    StripPadded(' ', "JavaScript");
  }

  lemma StripReact()
    ensures Strip(" React") == "React"
  {
    assert " React" == [' '] + "React";
    StripPadded(' ', "React");
  }

  /** The first comma-free segment of a tech stack comes first, stripped, unless blank. */
  lemma ParseTechStackCons(a: string, b: string)
    requires ',' !in a
    ensures ParseTechStack(a + "," + b) == (if Strip(a) == "" then [] else [Strip(a)]) + ParseTechStack(b)
  {
    ParseTechStackAround(a, b);
    ParseTechStackSegment(a);
  }

  /** The worked example: a blank segment between two commas is dropped,
      the others are stripped and kept in order. */
  lemma TechStackExample()
    ensures ParseTechStack("Python, JavaScript,  , React") == ["Python", "JavaScript", "React"]
  {
    assert "Python, JavaScript,  , React" == "Python" + "," + " JavaScript" + "," + "  " + "," + " React";
    TechStackExampleParsed();
  }

  lemma TechStackExampleParsed()
    ensures ParseTechStack("Python" + "," + " JavaScript" + "," + "  " + "," + " React") == ["Python", "JavaScript", "React"]
  {
    StripExamples();
    ExampleSegmentsCommaFree();
    FourSegments("Python", " JavaScript", "  ", " React");
  }

  lemma ExampleSegmentsCommaFree()
    ensures ',' !in "Python" && ',' !in " JavaScript" && ',' !in "  " && ',' !in " React"
  {
    assert ',' !in "Python";
    assert ',' !in " JavaScript";
  }

  lemma FourSegments(a: string, b: string, c: string, d: string)
    requires ',' !in a && ',' !in b && ',' !in c && ',' !in d
    requires Strip(a) != "" && Strip(b) != "" && Strip(c) == "" && Strip(d) != ""
    ensures ParseTechStack(a + "," + b + "," + c + "," + d) == [Strip(a), Strip(b), Strip(d)]
  {
    ThreeSegments(a, b, c);
    ParseTechStackAround(a + "," + b + "," + c, d);
    ParseTechStackSegment(d);
  }

  lemma ThreeSegments(a: string, b: string, c: string)
    requires ',' !in a && ',' !in b && ',' !in c
    requires Strip(a) != "" && Strip(b) != "" && Strip(c) == ""
    ensures ParseTechStack(a + "," + b + "," + c) == [Strip(a), Strip(b)]
  {
    TwoSegments(a, b);
    ParseTechStackAround(a + "," + b, c);
    ParseTechStackSegment(c);
  }

  lemma TwoSegments(a: string, b: string)
    requires ',' !in a && ',' !in b && Strip(a) != "" && Strip(b) != ""
    ensures ParseTechStack(a + "," + b) == [Strip(a), Strip(b)]
  {
    ParseTechStackAround(a, b);
    ParseTechStackSegment(a);
    ParseTechStackSegment(b);
  }
}
