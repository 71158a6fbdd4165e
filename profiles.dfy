/**
 * The candidate profile record written by the résumé parser and read by the
 * retriever, the vacancy matcher and the dashboard. A key that a JSON record
 * may lack is an `Option`; list-valued keys read as empty when absent.
 */
module Profiles {
  import opened Wrappers

  datatype Skill = Skill(name: string, confidence: real)

  datatype Education = Education(degree: string, field: string)

  datatype Contact = Contact(email: Option<string>, phone: Option<string>, linkedin: Option<string>, location: Option<string>)

  datatype Profile = Profile(
    candidateId: string,
    name: Option<string>,
    roleCategory: Option<string>,
    titles: seq<string>,
    skills: seq<Skill>,
    experienceYears: Option<int>,
    education: seq<Education>,
    contact: Contact,
    email: Option<string>,
    phone: Option<string>,
    location: Option<string>,
    workAuthorization: Option<string>,
    availability: Option<string>,
    resumeSnippet: string,
    sourceFile: string,
    parsedDate: Option<string>,
    status: Option<string>,
    stage: Option<string>)

  /** `profile.get('experience_years', 0)` */
  function ExperienceOf(p: Profile): int {
    p.experienceYears.GetOr(0)
  }

  /** A profile together with the score attached to it (`search_score` or `match_score`). */
  datatype Scored = Scored(profile: Profile, score: real)

  function IdOf(h: Scored): string {
    h.profile.candidateId
  }

  /** No candidate id occurs twice. */
  ghost predicate DistinctIds(s: seq<Scored>) {
    forall i, j | 0 <= i < j < |s| :: IdOf(s[i]) != IdOf(s[j])
  }
}
