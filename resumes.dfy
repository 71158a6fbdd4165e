/**
 * The text helpers of `ResumeParser` (parse_resumes.py) and the gating and
 * record shape of `parse_resume`. Text extraction from PDF/DOCX/DOC files,
 * the regular-expression extractors and the clock are inputs: the extracted
 * text, the numbers the experience patterns capture, the contact record,
 * education list, authorisation and availability, and the timestamps.
 */
module Resumes {
  import opened Wrappers
  import opened Seqs
  import opened Text
  import opened Profiles

  // `skill_keywords` of `extract_skills`, one constant per line of the list.
  const Languages: seq<string> := ["python", "java", "javascript", "typescript", "c++", "c#", "ruby", "php", "go", "rust", "swift", "kotlin"]
  const Frameworks: seq<string> := ["react", "angular", "vue", "django", "flask", "spring", "node.js", "express", ".net", "laravel"]
  const Databases: seq<string> := ["sql", "mysql", "postgresql", "mongodb", "redis", "oracle", "dynamodb", "cassandra", "elasticsearch"]
  const CloudAndDevOps: seq<string> := ["aws", "azure", "gcp", "docker", "kubernetes", "jenkins", "terraform", "ci/cd", "devops"]
  const DataAndMl: seq<string> := ["machine learning", "deep learning", "data science", "tensorflow", "pytorch", "pandas", "numpy", "spark"]
  const Practices: seq<string> := ["git", "jira", "agile", "scrum", "rest api", "graphql", "microservices"]
  const SoftSkills: seq<string> := ["leadership", "team management", "communication", "problem solving", "analytical", "project management"]

  /** The whole keyword list, in list order. */
  const SkillKeywords: seq<string> :=
    Languages + Frameworks + Databases + CloudAndDevOps + DataAndMl + Practices + SoftSkills

  /** 0.9 when the keyword stands between single spaces somewhere in the text, 0.7 otherwise. */
  function Confidence(textLower: string, k: string): real {
    if Contains(textLower, " " + k + " ") then 0.9 else 0.7
  }

  /** The skill records `extract_skills` reports for the keywords, in keyword order. */
  function DetectSkills(keywords: seq<string>, textLower: string): seq<Skill>
    decreases |keywords|
  {
    if keywords == [] then []
    else
      var k := keywords[|keywords| - 1];
      DetectSkills(keywords[..|keywords| - 1], textLower)
        + (if Contains(textLower, k) then [Skill(k, Confidence(textLower, k))] else [])
  }

  function Names(skills: seq<Skill>): (r: seq<string>)
    ensures |r| == |skills|
    ensures forall i | 0 <= i < |skills| :: r[i] == skills[i].name
  {
    seq(|skills|, i requires 0 <= i < |skills| => skills[i].name)
  }

  /** The reported names are the keywords found in the text, and each carries the confidence of its own occurrence. */
  lemma {:induction false} DetectSkillsSpec(keywords: seq<string>, textLower: string)
    ensures Names(DetectSkills(keywords, textLower)) == Matching(keywords, textLower)
    ensures forall s | s in DetectSkills(keywords, textLower) :: s.confidence == Confidence(textLower, s.name)
    decreases |keywords|
  {
    if keywords != [] {
      DetectSkillsSpec(keywords[..|keywords| - 1], textLower);
    }
  }

  lemma KeywordLinesDistinct()
    ensures Distinct(Languages)
    ensures Distinct(Frameworks)
    ensures Distinct(Databases)
    ensures Distinct(CloudAndDevOps)
    ensures Distinct(DataAndMl)
    ensures Distinct(Practices)
    ensures Distinct(SoftSkills)
  {
  }

  // No line of the keyword list repeats an entry of an earlier line.
  lemma FrameworksAreNew()
    ensures forall x | x in Frameworks :: x !in Languages
  {
  }

  lemma DatabasesAreNew()
    ensures forall x | x in Databases :: x !in Languages && x !in Frameworks
  {
  }

  lemma CloudAndDevOpsAreNew()
    ensures forall x | x in CloudAndDevOps :: x !in Languages && x !in Frameworks && x !in Databases
  {
  }

  lemma DataAndMlAreNew()
    ensures forall x | x in DataAndMl :: x !in Languages && x !in Frameworks && x !in Databases && x !in CloudAndDevOps
  {
  }

  lemma PracticesAreNew()
    ensures forall x | x in Practices :: x !in Languages && x !in Frameworks && x !in Databases && x !in CloudAndDevOps && x !in DataAndMl
  {
  }

  lemma SoftSkillsAreNew()
    ensures forall x | x in SoftSkills :: x !in Languages && x !in Frameworks && x !in Databases && x !in CloudAndDevOps && x !in DataAndMl && x !in Practices
  {
  }

  /** The keyword list has no repeated entry: each line has none, and no line repeats an entry of an earlier one. */
  lemma SkillKeywordsDistinct()
    ensures Distinct(SkillKeywords)
  {
    KeywordLinesDistinct();
    FrameworksAreNew();
    DatabasesAreNew();
    CloudAndDevOpsAreNew();
    DataAndMlAreNew();
    PracticesAreNew();
    SoftSkillsAreNew();
    DistinctAppend(Languages, Frameworks);
    DistinctAppend(Languages + Frameworks, Databases);
    DistinctAppend(Languages + Frameworks + Databases, CloudAndDevOps);
    DistinctAppend(Languages + Frameworks + Databases + CloudAndDevOps, DataAndMl);
    DistinctAppend(Languages + Frameworks + Databases + CloudAndDevOps + DataAndMl, Practices);
    DistinctAppend(Languages + Frameworks + Databases + CloudAndDevOps + DataAndMl + Practices, SoftSkills);
  }

  /** The loop of `extract_skills` over a keyword list. */
  method ScanSkills(keywords: seq<string>, textLower: string) returns (skills: seq<Skill>)
    ensures skills == DetectSkills(keywords, textLower)
  {
    skills := [];
    for i := 0 to |keywords|
      invariant skills == DetectSkills(keywords[..i], textLower)
    {
      var skill := keywords[i];
      assert keywords[..i + 1][..i] == keywords[..i];
      if Contains(textLower, skill) {
        var confidence := if Contains(textLower, " " + skill + " ") then 0.9 else 0.7;
        skills := skills + [Skill(skill, confidence)];
      }
    }
    assert keywords[..|keywords|] == keywords;
  }

  /** `extract_skills` */
  method ExtractSkills(text: string) returns (skills: seq<Skill>)
    ensures skills == DetectSkills(SkillKeywords, Lower(text))
  {
    skills := ScanSkills(SkillKeywords, Lower(text));
  }

  /** A keyword is reported iff it occurs in the lower-cased text; names follow the keyword list and never repeat. */
  lemma ExtractSkillsSpec(text: string, k: string)
    ensures k in Names(DetectSkills(SkillKeywords, Lower(text))) <==> k in SkillKeywords && Contains(Lower(text), k)
    ensures Subsequence(Names(DetectSkills(SkillKeywords, Lower(text))), SkillKeywords)
    ensures Distinct(Names(DetectSkills(SkillKeywords, Lower(text))))
  {
    DetectSkillsSpec(SkillKeywords, Lower(text));
    MatchingMembers(SkillKeywords, Lower(text), k);
    MatchingOrder(SkillKeywords, Lower(text));
    SkillKeywordsDistinct();
    MatchingDistinct(SkillKeywords, Lower(text));
  }

  /** Matching is by substring, so a text where `javascript` is found also reports `java`. */
  lemma JavascriptImpliesJava(text: string)
    requires "javascript" in Names(DetectSkills(SkillKeywords, Lower(text)))
    ensures "java" in Names(DetectSkills(SkillKeywords, Lower(text)))
  {
    ExtractSkillsSpec(text, "javascript");
    ExtractSkillsSpec(text, "java");
    ContainsPrefix(Lower(text), "javascript", "java");
  }

  /** `years` is at most 50, no captured value in [0, 50] exceeds it, and it is 0 or one of the captured values. */
  predicate LargestCapture(captures: seq<seq<nat>>, years: nat) {
    && years <= 50
    && (forall p, m | 0 <= p < |captures| && 0 <= m < |captures[p]| && captures[p][m] <= 50 :: captures[p][m] <= years)
    && (years == 0 || exists p, m | 0 <= p < |captures| && 0 <= m < |captures[p]| :: captures[p][m] == years)
  }

  /**
   * `extract_work_experience`, with `captures[p]` the numbers the `p`-th
   * pattern captured in the lower-cased text: the largest captured value in
   * [0, 50], or 0 when there is none.
   */
  method ExtractWorkExperience(captures: seq<seq<nat>>) returns (maxYears: nat)
    ensures LargestCapture(captures, maxYears)
  {
    maxYears := 0;
    for p := 0 to |captures|
      invariant maxYears <= 50
      invariant forall q, m | 0 <= q < p && 0 <= m < |captures[q]| && captures[q][m] <= 50 :: captures[q][m] <= maxYears
      invariant maxYears == 0 || exists q, m | 0 <= q < p && 0 <= m < |captures[q]| :: captures[q][m] == maxYears
    {
      var matches := captures[p];
      for m := 0 to |matches|
        invariant maxYears <= 50
        invariant forall q, n | 0 <= q < p && 0 <= n < |captures[q]| && captures[q][n] <= 50 :: captures[q][n] <= maxYears
        invariant forall n | 0 <= n < m && matches[n] <= 50 :: matches[n] <= maxYears
        invariant maxYears == 0 || exists q, n | 0 <= q <= p && 0 <= n < |captures[q]| :: captures[q][n] == maxYears
      {
        var years := matches[m];
        if 0 <= years <= 50 {
          maxYears := if maxYears >= years then maxYears else years;
        }
      }
    }
  }

  /** `'. '.join(text.split('.')[:3])` */
  function SnippetBase(text: string): string {
    Join(Take(Split(text, '.'), 3), ". ")
  }

  /** `create_resume_snippet`: at most 300 characters of the first three sentences, `...` marking a cut. */
  function CreateResumeSnippet(text: string): (r: string)
    ensures |SnippetBase(text)| > 300 ==> r == SnippetBase(text)[..300] + "..." && |r| == 303
    ensures |SnippetBase(text)| <= 300 ==> r == SnippetBase(text)
    ensures |r| <= 303
  {
    var snippet := SnippetBase(text);
    if |snippet| > 300 then snippet[..300] + "..." else snippet
  }

  /** A short text without a full stop is its own snippet. */
  lemma SnippetOfOneSentence(text: string)
    requires '.' !in text && |text| <= 300
    ensures CreateResumeSnippet(text) == text
  {
    SplitPiece(text, '.');
  }

  /** In a short text of two sentences the full stop becomes `. `. */
  lemma SnippetOfTwoSentences(a: string, b: string)
    requires '.' !in a && '.' !in b && |a| + |b| + 2 <= 300
    ensures CreateResumeSnippet(a + "." + b) == a + ". " + b
  {
    SplitPiece(b, '.');
    SplitPieceThenSeparator(a, '.', b);
    assert a + "." + b == a + ['.'] + b;
    assert Split(a + "." + b, '.') == [a, b];
    assert Take([a, b], 3) == [a, b];
    assert [a, b][1..] == [b];
    assert Join([a, b], ". ") == a + ". " + Join([b], ". ");
    assert SnippetBase(a + "." + b) == a + ". " + b;
  }

  /** The parts of a profile that `create_searchable_text` joins, before empty ones are dropped. */
  function SearchableParts(p: Profile): seq<string> {
    [p.name.GetOr(""),
     p.roleCategory.GetOr(""),
     Join(p.titles, " "),
     Join(Names(p.skills), " "),
     p.location.GetOr(""),
     p.workAuthorization.GetOr(""),
     Join(EducationTexts(p.education), " ")]
  }

  function EducationTexts(es: seq<Education>): (r: seq<string>)
    ensures |r| == |es|
    ensures forall i | 0 <= i < |es| :: r[i] == es[i].degree + " " + es[i].field
  {
    seq(|es|, i requires 0 <= i < |es| => es[i].degree + " " + es[i].field)
  }

  /** `filter(None, parts)` */
  function NonEmpty(parts: seq<string>): (r: seq<string>)
    ensures forall x :: x in r <==> x in parts && x != ""
    decreases |parts|
  {
    if parts == [] then []
    else (if parts[0] != "" then [parts[0]] else []) + NonEmpty(parts[1..])
  }

  /** `create_searchable_text` */
  function CreateSearchableText(p: Profile, fullText: string): string {
    Join(NonEmpty(SearchableParts(p)), " ") + " " + Take(fullText, 1000)
  }

  /**
   * The searchable text is the profile part, a space, and the first 1000
   * characters of the full text (all of it when shorter); every non-empty
   * part occurs in the profile part.
   */
  lemma SearchableTextSpec(p: Profile, fullText: string, part: string)
    requires part in SearchableParts(p) && part != ""
    ensures Contains(CreateSearchableText(p, fullText), part)
    ensures var t := CreateSearchableText(p, fullText); var tail := Take(fullText, 1000);
      && |tail| == (if |fullText| <= 1000 then |fullText| else 1000) && tail == fullText[..|tail|]
      && |t| > |tail| && t[|t| - |tail| - 1..] == " " + tail
      && t[..|t| - |tail| - 1] == Join(NonEmpty(SearchableParts(p)), " ")
      && Contains(t[..|t| - |tail| - 1], part)
  {
    var parts := NonEmpty(SearchableParts(p));
    var head := Join(parts, " ");
    var tail := Take(fullText, 1000);
    var t := CreateSearchableText(p, fullText);
    var i :| 0 <= i < |parts| && parts[i] == part;
    JoinContainsParts(parts, " ", i);
    ContainsWithin("", head, " " + tail, part);
    assert "" + head + (" " + tail) == t;
    assert t[..|t| - |tail| - 1] == head;
  }

  /** Every skill name of the profile can be found in its searchable text. */
  lemma SearchableTextHasSkills(p: Profile, fullText: string, j: nat)
    requires j < |p.skills| && p.skills[j].name != ""
    ensures Contains(CreateSearchableText(p, fullText), p.skills[j].name)
  {
    var joined := Join(Names(p.skills), " ");
    JoinContainsParts(Names(p.skills), " ", j);
    assert SearchableParts(p)[3] == joined;
    SearchableTextSpec(p, fullText, joined);
    ContainsTransitive(CreateSearchableText(p, fullText), joined, p.skills[j].name);
  }

  /** `Path(file_name).suffix`: from the last dot of the name, unless that dot is the first or the last character. */
  function Suffix(name: string): (r: string)
    ensures |r| <= |name| && r == name[|name| - |r|..]
    ensures r != [] ==> |r| >= 2 && r[0] == '.' && forall k | 1 <= k < |r| :: r[k] != '.'
    ensures r != [] ==> |r| < |name|  // a leading dot (".pdf") starts no suffix
    ensures r == [] ==> forall i | 0 < i < |name| - 1 :: name[i] == '.' ==> exists k | i < k < |name| :: name[k] == '.'
  {
    var i := LastDot(name);
    if 0 < i < |name| - 1 then name[i..] else ""
  }

  /** The index of the last `.` in `s`, or -1 (`str.rfind('.')`). */
  function LastDot(s: string): (i: int)
    ensures -1 <= i < |s|
    ensures i >= 0 ==> s[i] == '.'
    ensures forall k | i < k < |s| :: s[k] != '.'
    decreases |s|
  {
    if s == [] then -1
    else if s[|s| - 1] == '.' then |s| - 1
    else LastDot(s[..|s| - 1])
  }

  /** The file kinds `parse_resume` can read. */
  predicate Readable(fileName: string) {
    Lower(Suffix(fileName)) in [".pdf", ".docx", ".doc"]
  }

  datatype ParsedResume = ParsedResume(profile: Profile, searchableText: string)

  /** What `parse_resume` reads besides the file name: the results of the extractors and of the clock. */
  datatype Extraction = Extraction(
    text: string,
    contact: Contact,
    experienceCaptures: seq<seq<nat>>,
    education: seq<Education>,
    workAuthorization: Option<string>,
    availability: Option<string>,
    stamp: string,
    now: string)

  /**
   * `parse_resume`: `None` for an unreadable suffix or a text of fewer than
   * 50 characters, otherwise the profile record and its searchable text.
   */
  method ParseResume(fileName: string, roleCategory: string, candidateName: string, x: Extraction)
    returns (r: Option<ParsedResume>)
    ensures r.None? <==> !Readable(fileName) || |x.text| < 50
    ensures r.Some? ==>
      var p := r.value.profile;
      && p.candidateId == "CAND_" + x.stamp
      && p.name == Some(candidateName) && p.roleCategory == Some(roleCategory)
      && p.titles == (if roleCategory != "" then [roleCategory] else [])
      && p.skills == DetectSkills(SkillKeywords, Lower(x.text))
      && p.experienceYears.Some? && p.experienceYears.value >= 0
      && LargestCapture(x.experienceCaptures, p.experienceYears.value)
      && p.education == x.education && p.contact == x.contact
      && p.email == x.contact.email && p.phone == x.contact.phone && p.location == x.contact.location
      && p.workAuthorization == x.workAuthorization && p.availability == x.availability
      && p.resumeSnippet == CreateResumeSnippet(x.text)
      && p.sourceFile == fileName && p.parsedDate == Some(x.now)
      && p.status == Some("New") && p.stage == Some("Uploaded")
      && r.value.searchableText == CreateSearchableText(p, x.text)
  {
    var suffix := Lower(Suffix(fileName));
    if suffix != ".pdf" && suffix != ".docx" && suffix != ".doc" {
      return None;
    }
    var text := x.text;
    if |text| < 50 {
      return None;
    }
    var skills := ExtractSkills(text);
    var experienceYears := ExtractWorkExperience(x.experienceCaptures);
    var resumeSnippet := CreateResumeSnippet(text);
    var titles := if roleCategory != "" then [roleCategory] else [];
    var profile := Profile(
      "CAND_" + x.stamp, Some(candidateName), Some(roleCategory), titles, skills, Some(experienceYears),
      x.education, x.contact, x.contact.email, x.contact.phone, x.contact.location,
      x.workAuthorization, x.availability, resumeSnippet, fileName, Some(x.now), Some("New"), Some("Uploaded"));
    var searchableText := CreateSearchableText(profile, text);
    return Some(ParsedResume(profile, searchableText));
  }
}
