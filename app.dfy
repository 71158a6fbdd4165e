/**
 * The helpers of the Streamlit front end (app.py) that carry logic: PII
 * masking, requirement extraction from a job description, the filter
 * dictionary and the required-skills post-filter of the traditional search,
 * and the match badge. The first match of each experience pattern is an
 * input, as the regular expressions are not modelled.
 */
module App {
  import opened Wrappers
  import opened Seqs
  import opened Text
  import opened Profiles
  import opened Retrieval

  // ----- mask_pii -----

  function Min3(n: nat): nat {
    if n <= 3 then n else 3
  }

  /** `mask_pii`: the value is shown as is when `unmasked` holds; `None` is Python's `None`. */
  function MaskPii(value: Option<string>, unmasked: bool): (r: Option<string>)
    ensures value.None? || value == Some("") || unmasked ==> r == value
    ensures value.Some? ==> r.Some?
  {
    if value.None? || value.value == "" || unmasked then value
    else
      var v := value.value;
      if '@' in v then
        var parts := Split(v, '@');
        Some(Stars(Min3(|parts[0]|)) + "@" + parts[1])
      else if |v| >= 4 then Some("+1-***-***-" + v[|v| - 4..])
      else Some("***")
  }

  /** An e-mail address keeps at most three stars for its local part and the text after the first `@` up to any second `@`. */
  lemma MaskEmail(local: string, rest: string)
    requires '@' !in local
    ensures MaskPii(Some(local + "@" + rest), false) == Some(Stars(Min3(|local|)) + "@" + Split(rest, '@')[0])
  {
    var v := local + "@" + rest;
    assert v == local + ['@'] + rest;
    assert v[|local|] == '@';
    SplitPieceThenSeparator(local, '@', rest);
  }

  /** Anything else keeps only its last four characters, and a value shorter than four none at all. */
  lemma MaskPhone(v: string)
    requires v != "" && '@' !in v
    ensures |v| >= 4 ==> MaskPii(Some(v), false) == Some("+1-***-***-" + v[|v| - 4..])
    ensures |v| < 4 ==> MaskPii(Some(v), false) == Some("***")
  {
  }

  /** Masking a masked value changes nothing more. */
  lemma MaskIdempotent(value: Option<string>)
    ensures MaskPii(MaskPii(value, false), false) == MaskPii(value, false)
  {
    if value.Some? && value.value != "" {
      var v := value.value;
      if '@' in v {
        var first, rest := SplitAtFirst(v, '@');
        var domain := Split(rest, '@')[0];
        MaskEmail(first, rest);
        assert v == first + "@" + rest;
        var masked := Stars(Min3(|first|)) + "@" + domain;
        assert '@' !in Stars(Min3(|first|));
        MaskEmail(Stars(Min3(|first|)), domain);
        SplitPiece(domain, '@');
      } else if |v| >= 4 {
        var masked := "+1-***-***-" + v[|v| - 4..];
        assert '@' !in masked;
        assert masked[|masked| - 4..] == v[|v| - 4..];
      }
    }
  }

  // ----- extract_key_requirements -----

  /** `skill_keywords` of `extract_key_requirements`, in list order. */
  const RequirementKeywords: seq<string> := [
    "python", "java", "javascript", "react", "node", "aws", "azure", "gcp",
    "docker", "kubernetes", "sql", "nosql", "mongodb", "postgresql",
    "machine learning", "ml", "ai", "tensorflow", "pytorch",
    "automation", "testing", "qa", "selenium", "jenkins",
    "validation", "regulatory", "medical device", "gmp", "fda", "iso",
    "project management", "agile", "scrum", "lean", "six sigma"]

  /** The keywords the lower-cased description contains, in list order. */
  function Found(jdText: string): seq<string> {
    Matching(RequirementKeywords, Lower(jdText))
  }

  datatype KeyRequirements = KeyRequirements(skills: seq<string>, minExperience: nat, searchQuery: string)

  /** `' '.join(skills[:5]) if skills else jd_text[:100]` */
  function SearchQuery(found: seq<string>, jdText: string): string {
    if found != [] then Join(Take(found, 5), " ") else Take(jdText, 100)
  }

  /**
   * `extract_key_requirements`, where `firstMatches[i]` is the number the
   * first match of the `i`-th experience pattern captured, if any.
   */
  method ExtractKeyRequirements(jdText: string, firstMatches: seq<Option<nat>>) returns (r: KeyRequirements)
    ensures r.skills == Take(Found(jdText), 10)
    ensures r.searchQuery == SearchQuery(Found(jdText), jdText)
    ensures forall i | 0 <= i < |firstMatches| && firstMatches[i].Some? :: firstMatches[i].value <= r.minExperience
    ensures r.minExperience == 0 || exists i | 0 <= i < |firstMatches| :: firstMatches[i] == Some(r.minExperience)
  {
    var skills: seq<string> := [];
    var jdLower := Lower(jdText);
    for i := 0 to |RequirementKeywords|
      invariant skills == Matching(RequirementKeywords[..i], jdLower)
    {
      MatchingStep(RequirementKeywords, jdLower, i);
      if Contains(jdLower, RequirementKeywords[i]) {
        skills := skills + [RequirementKeywords[i]];
      }
    }
    assert RequirementKeywords[..|RequirementKeywords|] == RequirementKeywords;
    var yearsExp: nat := 0;
    for i := 0 to |firstMatches|
      invariant forall j | 0 <= j < i && firstMatches[j].Some? :: firstMatches[j].value <= yearsExp
      invariant yearsExp == 0 || exists j | 0 <= j < i :: firstMatches[j] == Some(yearsExp)
    {
      if firstMatches[i].Some? {
        yearsExp := if yearsExp >= firstMatches[i].value then yearsExp else firstMatches[i].value;
      }
    }
    var searchQuery := if skills != [] then Join(Take(skills, 5), " ") else Take(jdText, 100);
    r := KeyRequirements(Take(skills, 10), yearsExp, searchQuery);
  }

  /** The skills are keywords found in the lower-cased description, in list order; below the cap of ten, every found keyword is there. */
  lemma RequirementSkillsSpec(jdText: string, k: string)
    ensures k in Take(Found(jdText), 10) ==> k in RequirementKeywords && Contains(Lower(jdText), k)
    ensures |Found(jdText)| <= 10 ==> (k in Take(Found(jdText), 10) <==> k in RequirementKeywords && Contains(Lower(jdText), k))
    ensures Subsequence(Found(jdText), RequirementKeywords)
    ensures forall s | s in Take(Found(jdText), 5) :: Contains(SearchQuery(Found(jdText), jdText), s)
  {
    var found := Found(jdText);
    MatchingMembers(RequirementKeywords, Lower(jdText), k);
    MatchingOrder(RequirementKeywords, Lower(jdText));
    var top := Take(found, 5);
    forall s | s in top ensures Contains(SearchQuery(found, jdText), s) {
      var i :| 0 <= i < |top| && top[i] == s;
      JoinContainsParts(top, " ", i);
    }
  }

  // ----- traditional search: filters and required skills -----

  const NoFilters := Filters(None, None, None, None, None)

  /** The filters dictionary of the traditional search, `None` when it stays empty. */
  function BuildFilters(roleFilter: string, minExp: int, maxExp: int): (r: Option<Filters>)
    ensures r.None? <==> roleFilter == "All" && minExp == 0 && maxExp == 30
    ensures r.Some? ==> !r.value.IsEmpty()
  {
    var role := if roleFilter != "All" then Some(roleFilter) else None;
    var range := minExp != 0 || maxExp != 30;
    var f := Filters(role, if range then Some(minExp) else None, if range then Some(maxExp) else None, None, None);
    if f.IsEmpty() then None else Some(f)
  }

  /** A profile passes the built filters iff it has the chosen role (unless All) and, with a non-default range, experience within it. */
  lemma BuildFiltersMeaning(roleFilter: string, minExp: int, maxExp: int, p: Profile)
    ensures MatchesFilters(p, BuildFilters(roleFilter, minExp, maxExp).GetOr(NoFilters)) <==>
      && (roleFilter != "All" ==> p.roleCategory == Some(roleFilter))
      && ((minExp, maxExp) != (0, 30) ==> minExp <= ExperienceOf(p) <= maxExp)
  {
  }

  /** `[s.strip().lower() for s in required_skills.split(',')]` */
  function RequiredList(requiredSkills: string): (r: seq<string>)
    ensures |r| == |Split(requiredSkills, ',')|
  {
    var items := Split(requiredSkills, ',');
    seq(|items|, i requires 0 <= i < |items| => Lower(Strip(items[i])))
  }

  /** `' '.join(s['name'].lower() for s in profile['skills'])` */
  function SkillLine(p: Profile): string {
    Join(seq(|p.skills|, i requires 0 <= i < |p.skills| => Lower(p.skills[i].name)), " ")
  }

  predicate HasAll(p: Profile, reqs: seq<string>) {
    forall req | req in reqs :: Contains(SkillLine(p), req)
  }

  function KeepWithSkills(results: seq<Scored>, reqs: seq<string>): seq<Scored>
    decreases |results|
  {
    if results == [] then []
    else
      var h := results[|results| - 1];
      KeepWithSkills(results[..|results| - 1], reqs) + (if HasAll(h.profile, reqs) then [h] else [])
  }

  /** The post-filter keeps exactly the results whose skill line contains every required item, in their order. */
  lemma {:induction false} KeepWithSkillsSpec(results: seq<Scored>, reqs: seq<string>)
    ensures forall h :: h in KeepWithSkills(results, reqs) <==> h in results && HasAll(h.profile, reqs)
    ensures Subsequence(KeepWithSkills(results, reqs), results)
    decreases |results|
  {
    if results != [] {
      var init := results[..|results| - 1];
      var h := results[|results| - 1];
      var kept := KeepWithSkills(init, reqs);
      KeepWithSkillsSpec(init, reqs);
      assert results == init + [h];
      if HasAll(h.profile, reqs) {
        assert (kept + [h])[..|kept|] == kept;
      } else {
        assert KeepWithSkills(results, reqs) == kept;
        SubsequenceSnoc(kept, init, h);
      }
    }
  }

  /** The required-skills post-filter, applied only when the field is not empty. */
  method FilterByRequiredSkills(results: seq<Scored>, requiredSkills: string) returns (filtered: seq<Scored>)
    ensures requiredSkills == "" ==> filtered == results
    ensures requiredSkills != "" ==> filtered == KeepWithSkills(results, RequiredList(requiredSkills))
  {
    if requiredSkills == "" {
      return results;
    }
    var requiredList := RequiredList(requiredSkills);
    filtered := [];
    for i := 0 to |results|
      invariant filtered == KeepWithSkills(results[..i], requiredList)
    {
      assert results[..i + 1][..i] == results[..i];
      if HasAll(results[i].profile, requiredList) {
        filtered := filtered + [results[i]];
      }
    }
    assert results[..|results|] == results;
  }

  // ----- match badge -----

  datatype Badge = Excellent | Good | Possible

  /** The badge for `search_score`. */
  function BadgeFor(score: real): Badge {
    if score >= 0.7 then Excellent else if score >= 0.4 then Good else Possible
  }

  /** Candidates found by both signals are Excellent; those found once by keyword only are Good; keyword hits are never merely Possible. */
  lemma BadgeOfFusedScore(sem: seq<Scored>, kw: seq<Scored>, id: string)
    requires id in Ids(sem) || id in Ids(kw)
    ensures id in Ids(sem) && id in Ids(kw) ==> BadgeFor(FusedScore(sem, kw, id)) == Excellent
    ensures id !in Ids(sem) && multiset(Ids(kw))[id] == 1 ==> BadgeFor(FusedScore(sem, kw, id)) == Good
    ensures id in Ids(kw) ==> BadgeFor(FusedScore(sem, kw, id)) != Possible
  {
  }
}
