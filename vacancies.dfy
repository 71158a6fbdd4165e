/**
 * `VacancyManager` (vacancy_management.py): an in-memory store of vacancy
 * records keyed by vacancy id. Records are created per role category,
 * candidates are assigned to them, their status moves between four values,
 * requirements are merged and notes appended. The JSON files the source
 * writes on every save are not modelled; the map is the state.
 *
 * Clock readings (`datetime.now()`) are parameters: `stamp` is the
 * `%Y%m%d%H%M%S` form used in ids, `now` and `filledAt` are ISO timestamps.
 */
module Vacancies {
  import opened Wrappers
  import opened Seqs
  import opened Text
  import opened Counters
  import opened Profiles
  import opened Ranking

  /** The statuses `update_vacancy_status` accepts. */
  const ValidStatuses: seq<string> := ["Open", "On Hold", "Closed", "Filled"]

  datatype Requirements = Requirements(
    requiredSkills: seq<string>,
    preferredSkills: seq<string>,
    minExperience: int,
    education: seq<string>,
    workAuthorization: Option<string>,
    location: Option<string>)

  /** The dictionary passed to `update_vacancy_requirements`: a key that is absent is `None`. */
  datatype RequirementsUpdate = RequirementsUpdate(
    requiredSkills: Option<seq<string>>,
    preferredSkills: Option<seq<string>>,
    minExperience: Option<int>,
    education: Option<seq<string>>,
    workAuthorization: Option<Option<string>>,
    location: Option<Option<string>>)

  datatype Note = Note(text: string, timestamp: string)

  datatype Vacancy = Vacancy(
    vacancyId: string,
    roleName: string,
    status: string,
    createdDate: string,
    assignedCandidates: seq<string>,
    requirements: Requirements,
    hiringManager: Option<string>,
    department: Option<string>,
    priority: string,
    targetHireDate: Option<string>,
    notes: seq<Note>,
    lastUpdated: Option<string>,
    filledDate: Option<string>)

  /** What every stored record satisfies: it is filed under its own id, its status is one of the four and no candidate is assigned twice. */
  ghost predicate WellFiled(id: string, v: Vacancy) {
    v.vacancyId == id && v.status in ValidStatuses && Distinct(v.assignedCandidates)
  }

  /** `f"VAC_{role_name.replace(' ', '_')}_{timestamp}"` */
  function VacancyId(roleName: string, stamp: string): string {
    "VAC_" + ReplaceChar(roleName, ' ', '_') + "_" + stamp
  }

  /** The record `create_vacancy_from_role` builds for a role that has no open vacancy. */
  function NewVacancy(roleName: string, stamp: string, now: string): Vacancy {
    Vacancy(
      VacancyId(roleName, stamp), roleName, "Open", now, [],
      Requirements([], [], 0, [], None, None),
      None, None, "Medium", None, [], None, None)
  }

  /** Two role names that differ only in spaces versus underscores get the same id when created in the same second, so the second creation overwrites the first record. */
  lemma VacancyIdIgnoresSpaces(stamp: string)
    ensures VacancyId("Data Engineer", stamp) == VacancyId("Data_Engineer", stamp)
  {
  }

  /** `requirements.update(update)`: the supplied keys are overwritten, the others kept. */
  function Merge(req: Requirements, upd: RequirementsUpdate): Requirements {
    Requirements(
      upd.requiredSkills.GetOr(req.requiredSkills),
      upd.preferredSkills.GetOr(req.preferredSkills),
      upd.minExperience.GetOr(req.minExperience),
      upd.education.GetOr(req.education),
      upd.workAuthorization.GetOr(req.workAuthorization),
      upd.location.GetOr(req.location))
  }

  /** Applying the same update twice is the same as applying it once, and an empty update changes nothing. */
  lemma MergeIdempotent(req: Requirements, upd: RequirementsUpdate)
    ensures Merge(Merge(req, upd), upd) == Merge(req, upd)
    ensures Merge(req, RequirementsUpdate(None, None, None, None, None, None)) == req
  {
  }

  /** A later update of the same keys wins over an earlier one. */
  lemma MergeLastWins(req: Requirements, a: RequirementsUpdate, b: RequirementsUpdate)
    requires a.requiredSkills.Some? ==> b.requiredSkills.Some?
    requires a.preferredSkills.Some? ==> b.preferredSkills.Some?
    requires a.minExperience.Some? ==> b.minExperience.Some?
    requires a.education.Some? ==> b.education.Some?
    requires a.workAuthorization.Some? ==> b.workAuthorization.Some?
    requires a.location.Some? ==> b.location.Some?
    ensures Merge(Merge(req, a), b) == Merge(req, b)
  {
  }

  /** The records of `m` listed in the order of `keys` (`self.vacancies.values()`). */
  function ValuesIn(keys: seq<string>, m: map<string, Vacancy>): (r: seq<Vacancy>)
    requires forall k | k in keys :: k in m
    ensures |r| == |keys|
    ensures forall i | 0 <= i < |keys| :: r[i] == m[keys[i]]
  {
    seq(|keys|, i requires 0 <= i < |keys| => m[keys[i]])
  }

  /** The record a role lookup is after: the role name matches and, for `openOnly`, the status is Open. */
  predicate Wanted(v: Vacancy, roleName: string, openOnly: bool) {
    v.roleName == roleName && (!openOnly || v.status == "Open")
  }

  /** The first wanted record in `vs`, as the early-returning loops find it. */
  function FirstFor(vs: seq<Vacancy>, roleName: string, openOnly: bool): Option<Vacancy>
    decreases |vs|
  {
    if vs == [] then None
    else if Wanted(vs[0], roleName, openOnly) then Some(vs[0])
    else FirstFor(vs[1..], roleName, openOnly)
  }

  /** The lookup finds a wanted record exactly when there is one, and what it finds is the first. */
  lemma {:induction false} FirstForSpec(vs: seq<Vacancy>, roleName: string, openOnly: bool)
    ensures FirstFor(vs, roleName, openOnly).None? <==> forall v | v in vs :: !Wanted(v, roleName, openOnly)
    ensures FirstFor(vs, roleName, openOnly).Some? ==>
      exists i | 0 <= i < |vs| :: vs[i] == FirstFor(vs, roleName, openOnly).value && Wanted(vs[i], roleName, openOnly)
        && forall j | 0 <= j < i :: !Wanted(vs[j], roleName, openOnly)
    decreases |vs|
  {
    if vs != [] && !Wanted(vs[0], roleName, openOnly) {
      FirstForSpec(vs[1..], roleName, openOnly);
      assert vs == [vs[0]] + vs[1..];
      if FirstFor(vs, roleName, openOnly).Some? {
        var i :| 0 <= i < |vs[1..]| && vs[1..][i] == FirstFor(vs, roleName, openOnly).value
          && Wanted(vs[1..][i], roleName, openOnly) && forall j | 0 <= j < i :: !Wanted(vs[1..][j], roleName, openOnly);
        assert vs[i + 1] == vs[1..][i];
        forall j | 0 <= j < i + 1 ensures !Wanted(vs[j], roleName, openOnly) {
          if j > 0 {
            assert vs[j] == vs[1..][j - 1];
          }
        }
      }
    } else if vs != [] {
      assert vs[0] in vs;
    }
  }

  /** Index form used by the search loop: nothing wanted before `i`, and `vs[i]` wanted. */
  lemma {:induction false} FirstForAt(vs: seq<Vacancy>, roleName: string, openOnly: bool, i: nat)
    requires i < |vs| && Wanted(vs[i], roleName, openOnly)
    requires forall j | 0 <= j < i :: !Wanted(vs[j], roleName, openOnly)
    ensures FirstFor(vs, roleName, openOnly) == Some(vs[i])
    decreases i
  {
    if i > 0 {
      FirstForAt(vs[1..], roleName, openOnly, i - 1);
    }
  }

  /** `[v for v in vacancies if v['status'] == status]` */
  function WithStatus(vs: seq<Vacancy>, status: string): (r: seq<Vacancy>)
    decreases |vs|
  {
    if vs == [] then []
    else (if vs[0].status == status then [vs[0]] else []) + WithStatus(vs[1..], status)
  }

  /** The status filter keeps exactly the records with that status, in their order. */
  lemma {:induction false} WithStatusSpec(vs: seq<Vacancy>, status: string)
    ensures forall v :: v in WithStatus(vs, status) <==> v in vs && v.status == status
    ensures Subsequence(WithStatus(vs, status), vs)
    decreases |vs|
  {
    if vs != [] {
      WithStatusSpec(vs[1..], status);
      assert vs == [vs[0]] + vs[1..];
      SubsequencePrepend(WithStatus(vs[1..], status), vs[1..], vs[0], vs[0].status == status);
    }
  }

  /** Prepending the same element to both sides, or only to the larger one, keeps a subsequence. */
  lemma {:induction false} SubsequencePrepend<T>(a: seq<T>, b: seq<T>, x: T, both: bool)
    requires Subsequence(a, b)
    ensures Subsequence((if both then [x] else []) + a, [x] + b)
    decreases |b|
  {
    var a' := (if both then [x] else []) + a;
    var b' := [x] + b;
    if b == [] {
      assert a == [];
      if both {
        assert a'[..|a'| - 1] == [] && b'[..|b'| - 1] == [];
      }
    } else if a == [] {
      if both {
        assert a' == [x];
        assert b'[..|b'| - 1] == [x] + b[..|b| - 1];
        SubsequenceEmpty(b[..|b| - 1]);
        SubsequencePrepend([], b[..|b| - 1], x, true);
      }
    } else {
      assert a'[|a'| - 1] == a[|a| - 1] && b'[|b'| - 1] == b[|b| - 1];
      assert a'[..|a'| - 1] == (if both then [x] else []) + a[..|a| - 1];
      assert b'[..|b'| - 1] == [x] + b[..|b| - 1];
      if a[|a| - 1] == b[|b| - 1] {
        SubsequencePrepend(a[..|a| - 1], b[..|b| - 1], x, both);
      } else {
        SubsequencePrepend(a, b[..|b| - 1], x, both);
      }
    }
  }

  lemma SubsequenceEmpty<T>(b: seq<T>)
    ensures Subsequence([], b)
  {
  }

  // ----- Statistics -----

  /** `stats['by_status'][vacancy['status']] += 1` over the records in order. */
  function StatusCounts(vs: seq<Vacancy>): Counter
    decreases |vs|
  {
    if vs == [] then [] else Inc(StatusCounts(vs[..|vs| - 1]), vs[|vs| - 1].status)
  }

  /** `stats['by_priority'][vacancy.get('priority', 'Medium')] += 1` over the records in order. */
  function PriorityCounts(vs: seq<Vacancy>): Counter
    decreases |vs|
  {
    if vs == [] then [] else Inc(PriorityCounts(vs[..|vs| - 1]), vs[|vs| - 1].priority)
  }

  /** The sum of the assigned-list lengths. */
  function AssignedTotal(vs: seq<Vacancy>): nat
    decreases |vs|
  {
    if vs == [] then 0 else AssignedTotal(vs[..|vs| - 1]) + |vs[|vs| - 1].assignedCandidates|
  }

  /** Each record is counted once under its status and once under its priority, each key listed once, every status one of the four. */
  lemma CountsTotal(vs: seq<Vacancy>)
    ensures Total(StatusCounts(vs)) == |vs| && Total(PriorityCounts(vs)) == |vs|
    ensures WellFormed(StatusCounts(vs)) && WellFormed(PriorityCounts(vs))
    ensures forall v | v in vs :: Get(StatusCounts(vs), v.status) > 0
  {
    StatusCountsTotal(vs);
    PriorityCountsTotal(vs);
    forall v | v in vs ensures Get(StatusCounts(vs), v.status) > 0 {
      StatusCountIsFilterLength(vs, v.status);
      WithStatusSpec(vs, v.status);
    }
  }

  lemma {:induction false} StatusCountsTotal(vs: seq<Vacancy>)
    ensures Total(StatusCounts(vs)) == |vs| && WellFormed(StatusCounts(vs))
    decreases |vs|
  {
    if vs != [] {
      var init := vs[..|vs| - 1];
      StatusCountsTotal(init);
      IncTotal(StatusCounts(init), vs[|vs| - 1].status);
      IncWellFormed(StatusCounts(init), vs[|vs| - 1].status);
    }
  }

  lemma {:induction false} PriorityCountsTotal(vs: seq<Vacancy>)
    ensures Total(PriorityCounts(vs)) == |vs| && WellFormed(PriorityCounts(vs))
    decreases |vs|
  {
    if vs != [] {
      var init := vs[..|vs| - 1];
      PriorityCountsTotal(init);
      IncTotal(PriorityCounts(init), vs[|vs| - 1].priority);
      IncWellFormed(PriorityCounts(init), vs[|vs| - 1].priority);
    }
  }

  /** The three folds of the statistics loop over one more record. */
  lemma StatsStep(vs: seq<Vacancy>, i: nat)
    requires i < |vs|
    ensures StatusCounts(vs[..i + 1]) == Inc(StatusCounts(vs[..i]), vs[i].status)
    ensures PriorityCounts(vs[..i + 1]) == Inc(PriorityCounts(vs[..i]), vs[i].priority)
    ensures AssignedTotal(vs[..i + 1]) == AssignedTotal(vs[..i]) + |vs[i].assignedCandidates|
  {
    assert vs[..i + 1][..i] == vs[..i];
  }

  /** Every status count is the size of that status query. */
  lemma StatusCountsAreFilterLengths(vs: seq<Vacancy>)
    ensures forall s :: Get(StatusCounts(vs), s) == |WithStatus(vs, s)|
  {
    forall s ensures Get(StatusCounts(vs), s) == |WithStatus(vs, s)| {
      StatusCountIsFilterLength(vs, s);
    }
  }

  /** A record whose status is `s` is counted under `s`: the count of a status is the number of records with it. */
  lemma {:induction false} StatusCountIsFilterLength(vs: seq<Vacancy>, s: string)
    ensures Get(StatusCounts(vs), s) == |WithStatus(vs, s)|
    decreases |vs|
  {
    if vs != [] {
      var init := vs[..|vs| - 1];
      var last := vs[|vs| - 1];
      StatusCountIsFilterLength(init, s);
      IncGet(StatusCounts(init), last.status, s);
      WithStatusSnoc(init, last, s);
      assert vs == init + [last];
    }
  }

  lemma {:induction false} WithStatusSnoc(vs: seq<Vacancy>, v: Vacancy, s: string)
    ensures WithStatus(vs + [v], s) == WithStatus(vs, s) + (if v.status == s then [v] else [])
    decreases |vs|
  {
    if vs == [] {
      assert [v][1..] == [];
    } else {
      var t := vs + [v];
      var head := if vs[0].status == s then [vs[0]] else [];
      var tail := if v.status == s then [v] else [];
      assert t[0] == vs[0] && t[1..] == vs[1..] + [v];
      WithStatusSnoc(vs[1..], v, s);
      assert WithStatus(t, s) == head + (WithStatus(vs[1..], s) + tail);
      assert WithStatus(vs, s) == head + WithStatus(vs[1..], s);
    }
  }

  datatype VacancyStats = VacancyStats(
    total: nat,
    byStatus: Counter,
    byPriority: Counter,
    totalCandidates: nat,
    avgCandidatesPerVacancy: real)

  // ----- Candidate matching -----

  /** `set(s.lower() for s in ...)` */
  function LowerSet(xs: seq<string>): set<string> {
    set x | x in xs :: Lower(x)
  }

  function SkillNames(p: Profile): set<string> {
    set s | s in p.skills :: Lower(s.name)
  }

  function MinInt(a: int, b: int): int {
    if a <= b then a else b
  }

  /** The four parts of the rule-based match score. */
  function RolePoints(v: Vacancy, p: Profile): real {
    if p.roleCategory == Some(v.roleName) then 20.0 else 0.0
  }

  function SkillPoints(req: Requirements, p: Profile): real {
    var required := LowerSet(req.requiredSkills);
    if |required| == 0 then 0.0 else (|required * SkillNames(p)| as real / |required| as real) * 40.0
  }

  function ExperiencePoints(req: Requirements, p: Profile): real {
    var exp := ExperienceOf(p);
    if exp >= req.minExperience then 20.0 + MinInt((exp - req.minExperience) * 2, 10) as real else 0.0
  }

  function AuthorizationPoints(req: Requirements, p: Profile): real {
    if req.workAuthorization.Some? && req.workAuthorization.value != "" && p.workAuthorization == req.workAuthorization
    then 10.0 else 0.0
  }

  function MatchScore(v: Vacancy, p: Profile): real {
    RolePoints(v, p) + SkillPoints(v.requirements, p) + ExperiencePoints(v.requirements, p) + AuthorizationPoints(v.requirements, p)
  }

  lemma FractionAtMostOne(a: nat, b: nat)
    requires 0 < b && a <= b
    ensures 0.0 <= a as real / b as real <= 1.0
  {
    assert (a as real / b as real) * b as real == a as real;
  }

  /** A match score lies between 0 and 100: 20 + 40 + (20 + 10) + 10. */
  lemma MatchScoreBounds(v: Vacancy, p: Profile)
    ensures 0.0 <= MatchScore(v, p) <= 100.0
  {
    var required := LowerSet(v.requirements.requiredSkills);
    if |required| > 0 {
      var common := required * SkillNames(p);
      assert required == (required - SkillNames(p)) + common;
      assert |required| == |required - SkillNames(p)| + |common|;
      FractionAtMostOne(|common|, |required|);
    }
  }

  /** The candidates `match_candidates_to_vacancy` keeps before sorting, in file order. */
  function MatchPool(v: Vacancy, ps: seq<Profile>): seq<Scored>
    decreases |ps|
  {
    if ps == [] then []
    else
      var p := ps[|ps| - 1];
      MatchPool(v, ps[..|ps| - 1])
        + (if p.candidateId !in v.assignedCandidates && MatchScore(v, p) > 0.0 then [Scored(p, MatchScore(v, p))] else [])
  }

  /** The pool holds exactly the unassigned profiles with a positive score, each with its score. */
  lemma {:induction false} MatchPoolSpec(v: Vacancy, ps: seq<Profile>)
    ensures forall h | h in MatchPool(v, ps) ::
      h.profile in ps && h.profile.candidateId !in v.assignedCandidates && h.score == MatchScore(v, h.profile)
        && 0.0 < h.score <= 100.0
    ensures forall p | p in ps && p.candidateId !in v.assignedCandidates && MatchScore(v, p) > 0.0 ::
      Scored(p, MatchScore(v, p)) in MatchPool(v, ps)
    decreases |ps|
  {
    if ps != [] {
      var p := ps[|ps| - 1];
      MatchPoolSpec(v, ps[..|ps| - 1]);
      MatchScoreBounds(v, p);
      assert ps == ps[..|ps| - 1] + [p];
    }
  }

  /** `scored_candidates.sort(key=match_score, reverse=True)` then `[:top_n]`. */
  function Matched(v: Vacancy, ps: seq<Profile>, topN: nat): seq<Scored> {
    Take(SortByScore(MatchPool(v, ps)), topN)
  }

  /** At most `top_n` unassigned candidates, best first, every score in (0, 100]; with room for all, every eligible one is there. */
  lemma MatchedProperties(v: Vacancy, ps: seq<Profile>, topN: nat)
    ensures |Matched(v, ps, topN)| <= topN
    ensures SortedDesc(Matched(v, ps, topN))
    ensures forall h | h in Matched(v, ps, topN) ::
      h.profile in ps && h.profile.candidateId !in v.assignedCandidates && h.score == MatchScore(v, h.profile)
        && 0.0 < h.score <= 100.0
    ensures |ps| <= topN ==> forall p | p in ps && p.candidateId !in v.assignedCandidates && MatchScore(v, p) > 0.0 ::
      Scored(p, MatchScore(v, p)) in Matched(v, ps, topN)
  {
    var pool := MatchPool(v, ps);
    var sorted := SortByScore(pool);
    MatchPoolSpec(v, ps);
    SortSorted(pool);
    SortPermutation(pool);
    var r := Matched(v, ps, topN);
    assert r == sorted[..|r|];
    forall i, j | 0 <= i < j < |r| ensures r[i].score >= r[j].score {
      assert r[i] == sorted[i] && r[j] == sorted[j];
    }
    forall h | h in r ensures h in pool {
      assert h in sorted;
      assert h in multiset(sorted);
    }
    MatchPoolLength(v, ps);
    if |ps| <= topN {
      assert |sorted| == |pool| <= |ps|;
      assert r == sorted;
      forall h | h in pool ensures h in r {
        assert h in multiset(pool);
      }
    }
  }

  lemma {:induction false} MatchPoolLength(v: Vacancy, ps: seq<Profile>)
    ensures |MatchPool(v, ps)| <= |ps|
    decreases |ps|
  {
    if ps != [] {
      MatchPoolLength(v, ps[..|ps| - 1]);
    }
  }

  /** `[load(c) for c in assigned if the profile file exists]` */
  function LoadAssigned(ids: seq<string>, store: map<string, Profile>): (r: seq<Profile>)
    ensures |r| <= |ids|
    ensures forall c | c in ids && c in store :: store[c] in r
    ensures forall p | p in r :: exists c | c in ids && c in store :: store[c] == p
    decreases |ids|
  {
    if ids == [] then []
    else (if ids[0] in store then [store[ids[0]]] else []) + LoadAssigned(ids[1..], store)
  }

  /** A map whose keys are exactly the elements of a repeat-free sequence has as many entries as the sequence. */
  lemma StoreSize(order: seq<string>, m: map<string, Vacancy>)
    requires Distinct(order) && forall id :: id in m <==> id in order
    ensures |m| == |order|
  {
    assert m.Keys == set id | id in order;
    DistinctCardinality(order);
  }

  /** `m` holds an Open vacancy for the role. */
  ghost predicate HasOpen(m: map<string, Vacancy>, roleName: string) {
    exists id | id in m :: Wanted(m[id], roleName, true)
  }

  /** The ids the roles of a batch get if their vacancies are created (`stamps[n]` is the clock at role `n`). */
  function NewIds(roles: seq<string>, stamps: seq<string>): (ids: seq<string>)
    requires |stamps| == |roles|
    ensures |ids| == |roles| && forall n | 0 <= n < |roles| :: ids[n] == VacancyId(roles[n], stamps[n])
  {
    seq(|roles|, n requires 0 <= n < |roles| => VacancyId(roles[n], stamps[n]))
  }

  /** The new ids are not stored yet and pairwise different, so no creation of the batch overwrites another record. */
  ghost predicate FreshIds(ids: seq<string>, m: map<string, Vacancy>) {
    Distinct(ids) && forall n | 0 <= n < |ids| :: ids[n] !in m
  }

  /** One creation of the batch keeps the Open vacancies of the earlier roles and adds one for role `i`. */
  lemma KeepOpen(roles: seq<string>, ids: seq<string>, m0: map<string, Vacancy>, i: nat,
                 before: map<string, Vacancy>, after: map<string, Vacancy>, v: Vacancy)
    requires |ids| == |roles| && i < |roles| && FreshIds(ids, m0)
    requires forall id | id in before && id !in m0 :: id in ids[..i]
    requires forall j | 0 <= j < i :: HasOpen(before, roles[j])
    requires after == before || (v.vacancyId == ids[i] && after == before[v.vacancyId := v])
    requires v.vacancyId in after && after[v.vacancyId] == v && Wanted(v, roles[i], true)
    ensures forall j | 0 <= j < i + 1 :: HasOpen(after, roles[j])
  {
    forall j | 0 <= j < i + 1 ensures HasOpen(after, roles[j]) {
      if j == i {
        assert Wanted(after[v.vacancyId], roles[j], true);
      } else if after != before {
        assert HasOpen(before, roles[j]);
        var w :| w in before && Wanted(before[w], roles[j], true);
        if w !in m0 {
          var n :| 0 <= n < i && ids[..i][n] == w;
          assert ids[n] == w && n != i;
        }
        assert w != v.vacancyId;
        assert after[w] == before[w];
      }
    }
  }

  /**
   * What a batch of creations has done after its first `i` roles: records
   * and keys were only added, a new key is the new id of one of those roles,
   * a record under any id outside `ids` is unchanged, and, with fresh ids,
   * each of those roles has an Open vacancy.
   */
  ghost predicate Batch(roles: seq<string>, ids: seq<string>, m0: map<string, Vacancy>, order0: seq<string>, i: nat,
                        m: map<string, Vacancy>, order: seq<string>)
    requires i <= |ids|
  {
    && m0.Keys <= m.Keys && order0 <= order
    && (forall id | id in m && id !in m0 :: id in ids[..i])
    && (forall id | id in m0 && id !in ids :: m[id] == m0[id])
    && (FreshIds(ids, m0) ==> forall j | 0 <= j < i && j < |roles| :: HasOpen(m, roles[j]))
  }

  /** One call of `create_vacancy_from_role` in the batch, which reused a record or saved `v` under the new id of role `i`, keeps `Batch`. */
  lemma BatchStep(roles: seq<string>, ids: seq<string>, m0: map<string, Vacancy>, order0: seq<string>, i: nat,
                  before: map<string, Vacancy>, orderBefore: seq<string>, after: map<string, Vacancy>, orderAfter: seq<string>, v: Vacancy)
    requires |ids| == |roles| && i < |roles|
    requires Batch(roles, ids, m0, order0, i, before, orderBefore)
    requires (after == before && orderAfter == orderBefore)
      || (v.vacancyId == ids[i] && after == before[v.vacancyId := v]
          && (orderAfter == orderBefore || orderAfter == orderBefore + [v.vacancyId]))
    requires v.vacancyId in after && after[v.vacancyId] == v && Wanted(v, roles[i], true)
    ensures Batch(roles, ids, m0, order0, i + 1, after, orderAfter)
  {
    assert ids[..i + 1] == ids[..i] + [ids[i]];
    if FreshIds(ids, m0) {
      KeepOpen(roles, ids, m0, i, before, after, v);
    }
  }

  /** The vacancy store. `order` is the insertion order of the Python dictionary's keys. */
  class VacancyManager {
    var vacancies: map<string, Vacancy>
    var order: seq<string>

    ghost predicate Valid()
      reads this
    {
      && Distinct(order)
      && (forall id :: id in vacancies <==> id in order)
      && (forall id | id in vacancies :: WellFiled(id, vacancies[id]))
    }

    /** `self.vacancies.values()` */
    function Values(): (r: seq<Vacancy>)
      reads this
      requires Valid()
      ensures |r| == |order|
    {
      ValuesIn(order, vacancies)
    }

    /** An empty store; loading the saved JSON files is not modelled. */
    constructor ()
      ensures Valid() && vacancies == map[] && order == []
    {
      vacancies := map[];
      order := [];
    }

    /** `save_vacancy`: store the record under its id; a new id goes to the end of the order, an existing one keeps its place. */
    method SaveVacancy(v: Vacancy)
      requires Valid() && WellFiled(v.vacancyId, v)
      modifies this
      ensures Valid()
      ensures vacancies == old(vacancies)[v.vacancyId := v]
      ensures order == if v.vacancyId in old(vacancies) then old(order) else old(order) + [v.vacancyId]
    {
      if v.vacancyId !in vacancies {
        DistinctSnoc(order, v.vacancyId);
        order := order + [v.vacancyId];
      }
      vacancies := vacancies[v.vacancyId := v];
    }

    /** `create_vacancy_from_role`: return the first Open record for the role, or create and save a new one. */
    method CreateVacancyFromRole(roleName: string, stamp: string, now: string) returns (v: Vacancy)
      requires Valid()
      modifies this
      ensures Valid()
      ensures old(FirstFor(Values(), roleName, true)).Some? ==>
        v == old(FirstFor(Values(), roleName, true)).value && vacancies == old(vacancies) && order == old(order)
      ensures old(FirstFor(Values(), roleName, true)).None? ==>
        && v == NewVacancy(roleName, stamp, now)
        && vacancies == old(vacancies)[v.vacancyId := v]
        && order == if v.vacancyId in old(vacancies) then old(order) else old(order) + [v.vacancyId]
      ensures v.roleName == roleName && v.status == "Open"
      ensures v.vacancyId in vacancies && vacancies[v.vacancyId] == v
    {
      var vs := Values();
      var i := 0;
      while i < |order|
        invariant 0 <= i <= |order|
        invariant forall j | 0 <= j < i :: !Wanted(vs[j], roleName, true)
      {
        var vac := vacancies[order[i]];
        assert WellFiled(order[i], vac);
        if vac.roleName == roleName && vac.status == "Open" {
          FirstForAt(vs, roleName, true, i);
          return vac;
        }
        i := i + 1;
      }
      FirstForSpec(vs, roleName, true);
      v := NewVacancy(roleName, stamp, now);
      SaveVacancy(v);
    }

    /**
     * `auto_create_vacancies_from_profiles` over the set of role categories,
     * enumerated as `roles`. Every call returns a record, so the count is the
     * number of roles, reused vacancies included. Records are only added or
     * overwritten under the ids the new vacancies would get, and when those
     * ids are new and pairwise different, every role ends with an Open
     * vacancy.
     */
    method AutoCreateVacancies(roles: seq<string>, stamps: seq<string>, nows: seq<string>) returns (createdCount: nat)
      requires Valid() && |stamps| == |roles| && |nows| == |roles|
      requires Distinct(roles) && forall r | r in roles :: r != ""
      modifies this
      ensures Valid()
      ensures createdCount == |roles|
      ensures old(vacancies).Keys <= vacancies.Keys && old(order) <= order
      ensures forall id | id in vacancies && id !in old(vacancies) :: id in NewIds(roles, stamps)
      ensures forall id | id in old(vacancies) && id !in NewIds(roles, stamps) :: vacancies[id] == old(vacancies)[id]
      ensures roles != [] ==> FirstFor(Values(), roles[|roles| - 1], true).Some?
      ensures FreshIds(NewIds(roles, stamps), old(vacancies)) ==> forall j | 0 <= j < |roles| :: HasOpen(vacancies, roles[j])
    {
      ghost var ids := NewIds(roles, stamps);
      createdCount := 0;
      for i := 0 to |roles|
        invariant Valid()
        invariant createdCount == i
        invariant Batch(roles, ids, old(vacancies), old(order), i, vacancies, order)
        invariant i > 0 ==> FirstFor(Values(), roles[i - 1], true).Some?
      {
        ghost var before, orderBefore := vacancies, order;
        var v := CreateVacancyFromRole(roles[i], stamps[i], nows[i]);
        FirstForSpec(Values(), roles[i], true);
        var k :| 0 <= k < |order| && order[k] == v.vacancyId;
        assert Values()[k] == v && Wanted(v, roles[i], true);
        assert v in Values();
        BatchStep(roles, ids, old(vacancies), old(order), i, before, orderBefore, vacancies, order, v);
        createdCount := createdCount + 1;
      }
    }

    /** `assign_candidate_to_vacancy`: append a candidate that is not yet assigned. */
    method AssignCandidate(vacancyId: string, candidateId: string, now: string) returns (ok: bool)
      requires Valid()
      modifies this
      ensures Valid()
      ensures ok <==> vacancyId in old(vacancies) && candidateId !in old(vacancies)[vacancyId].assignedCandidates
      ensures !ok ==> vacancies == old(vacancies) && order == old(order)
      ensures ok ==> order == old(order) && vacancies == old(vacancies)[vacancyId := old(vacancies)[vacancyId].(
        assignedCandidates := old(vacancies)[vacancyId].assignedCandidates + [candidateId],
        lastUpdated := Some(now))]
      ensures vacancyId in vacancies ==> candidateId in vacancies[vacancyId].assignedCandidates
    {
      if vacancyId !in vacancies {
        return false;
      }
      var vacancy := vacancies[vacancyId];
      if candidateId !in vacancy.assignedCandidates {
        DistinctSnoc(vacancy.assignedCandidates, candidateId);
        vacancy := vacancy.(assignedCandidates := vacancy.assignedCandidates + [candidateId], lastUpdated := Some(now));
        SaveVacancy(vacancy);
        return true;
      }
      return false;
    }

    /** `update_vacancy_status`: an invalid status or an unknown id changes nothing; `filled_date` is set only for Filled. */
    method UpdateStatus(vacancyId: string, status: string, now: string, filledAt: string) returns (ok: bool)
      requires Valid()
      modifies this
      ensures Valid()
      ensures ok <==> status in ValidStatuses && vacancyId in old(vacancies)
      ensures !ok ==> vacancies == old(vacancies) && order == old(order)
      ensures ok ==> order == old(order) && vacancies == old(vacancies)[vacancyId := old(vacancies)[vacancyId].(
        status := status,
        lastUpdated := Some(now),
        filledDate := if status == "Filled" then Some(filledAt) else old(vacancies)[vacancyId].filledDate)]
    {
      if status !in ValidStatuses {
        return false;
      }
      if vacancyId !in vacancies {
        return false;
      }
      var vacancy := vacancies[vacancyId].(status := status, lastUpdated := Some(now));
      if status == "Filled" {
        vacancy := vacancy.(filledDate := Some(filledAt));
      }
      SaveVacancy(vacancy);
      return true;
    }

    /** `update_vacancy_requirements`: merge the supplied keys into the record's requirements. */
    method UpdateRequirements(vacancyId: string, upd: RequirementsUpdate, now: string) returns (ok: bool)
      requires Valid()
      modifies this
      ensures Valid()
      ensures ok <==> vacancyId in old(vacancies)
      ensures !ok ==> vacancies == old(vacancies) && order == old(order)
      ensures ok ==> order == old(order) && vacancies == old(vacancies)[vacancyId := old(vacancies)[vacancyId].(
        requirements := Merge(old(vacancies)[vacancyId].requirements, upd),
        lastUpdated := Some(now))]
    {
      if vacancyId !in vacancies {
        return false;
      }
      var vacancy := vacancies[vacancyId];
      vacancy := vacancy.(requirements := Merge(vacancy.requirements, upd), lastUpdated := Some(now));
      SaveVacancy(vacancy);
      return true;
    }

    /** `add_note_to_vacancy`: append a timestamped note; `last_updated` is not touched. */
    method AddNote(vacancyId: string, text: string, now: string) returns (ok: bool)
      requires Valid()
      modifies this
      ensures Valid()
      ensures ok <==> vacancyId in old(vacancies)
      ensures !ok ==> vacancies == old(vacancies) && order == old(order)
      ensures ok ==> order == old(order) && vacancies == old(vacancies)[vacancyId := old(vacancies)[vacancyId].(
        notes := old(vacancies)[vacancyId].notes + [Note(text, now)])]
    {
      if vacancyId !in vacancies {
        return false;
      }
      var vacancy := vacancies[vacancyId];
      vacancy := vacancy.(notes := vacancy.notes + [Note(text, now)]);
      SaveVacancy(vacancy);
      return true;
    }

    /** `get_vacancy`: `self.vacancies.get(vacancy_id)` */
    function GetVacancy(vacancyId: string): (r: Option<Vacancy>)
      reads this
      requires Valid()
      ensures r.Some? <==> vacancyId in vacancies
      ensures r.Some? ==> r.value.vacancyId == vacancyId && r.value in Values()
    {
      if vacancyId in vacancies then
        var k :| 0 <= k < |order| && order[k] == vacancyId;
        assert Values()[k] == vacancies[vacancyId];
        Some(vacancies[vacancyId])
      else None
    }

    /** `get_vacancy_by_role`: the first record, in insertion order, with that role name, whatever its status. */
    function GetVacancyByRole(roleName: string): (r: Option<Vacancy>)
      reads this
      requires Valid()
      ensures r.None? <==> forall v | v in Values() :: v.roleName != roleName
      ensures r.Some? ==> r.value in Values() && r.value.roleName == roleName
    {
      FirstForSpec(Values(), roleName, false);
      FirstFor(Values(), roleName, false)
    }

    /** `get_all_vacancies`: with a non-empty status filter only the records with that status, otherwise all, in insertion order. */
    function GetAllVacancies(statusFilter: Option<string>): (r: seq<Vacancy>)
      reads this
      requires Valid()
      ensures statusFilter.Some? && statusFilter.value != "" ==>
        (forall v :: v in r <==> v in Values() && v.status == statusFilter.value) && Subsequence(r, Values())
      ensures statusFilter.None? || statusFilter.value == "" ==> r == Values()
    {
      if statusFilter.Some? && statusFilter.value != "" then
        WithStatusSpec(Values(), statusFilter.value);
        WithStatus(Values(), statusFilter.value)
      else Values()
    }

    /** `get_vacancy_stats` */
    method GetVacancyStats() returns (stats: VacancyStats)
      requires Valid()
      ensures stats.total == |vacancies|
      ensures stats.byStatus == StatusCounts(Values()) && stats.byPriority == PriorityCounts(Values())
      ensures Total(stats.byStatus) == stats.total && Total(stats.byPriority) == stats.total
      ensures forall s :: Get(stats.byStatus, s) == |WithStatus(Values(), s)|
      ensures stats.totalCandidates == AssignedTotal(Values())
      ensures stats.avgCandidatesPerVacancy ==
        if stats.total > 0 then stats.totalCandidates as real / stats.total as real else 0.0
    {
      var vs := Values();
      var byStatus: Counter := [];
      var byPriority: Counter := [];
      var totalCandidates := 0;
      for i := 0 to |vs|
        invariant byStatus == StatusCounts(vs[..i])
        invariant byPriority == PriorityCounts(vs[..i])
        invariant totalCandidates == AssignedTotal(vs[..i])
      {
        StatsStep(vs, i);
        byStatus := Inc(byStatus, vs[i].status);
        byPriority := Inc(byPriority, vs[i].priority);
        totalCandidates := totalCandidates + |vs[i].assignedCandidates|;
      }
      assert vs[..|vs|] == vs;
      StoreSize(order, vacancies);
      StatusCountsTotal(vs);
      PriorityCountsTotal(vs);
      StatusCountsAreFilterLengths(vs);
      var total := |order|;
      var avg := if total > 0 then totalCandidates as real / total as real else 0.0;
      stats := VacancyStats(total, byStatus, byPriority, totalCandidates, avg);
    }

    /** `get_candidates_for_vacancy`, with the profile files as a map from candidate id to profile. */
    function GetCandidatesForVacancy(vacancyId: string, store: map<string, Profile>): (r: seq<Profile>)
      reads this
      requires Valid()
      ensures vacancyId !in vacancies ==> r == []
      ensures vacancyId in vacancies ==>
        (|r| <= |vacancies[vacancyId].assignedCandidates| && forall c | c in vacancies[vacancyId].assignedCandidates && c in store :: store[c] in r)
    {
      if vacancyId in vacancies then LoadAssigned(vacancies[vacancyId].assignedCandidates, store) else []
    }

    /** `match_candidates_to_vacancy`, with the parsed profiles given in file order. */
    method MatchCandidates(vacancyId: string, profiles: seq<Profile>, topN: nat) returns (r: seq<Scored>)
      requires Valid()
      ensures vacancyId !in vacancies ==> r == []
      ensures vacancyId in vacancies ==> r == Matched(vacancies[vacancyId], profiles, topN)
      ensures |r| <= topN && SortedDesc(r)
      ensures forall h | h in r ::
        (h.profile in profiles && 0.0 < h.score <= 100.0 && h.profile.candidateId !in vacancies[vacancyId].assignedCandidates)
    {
      if vacancyId !in vacancies {
        return [];
      }
      var vacancy := vacancies[vacancyId];
      var scored: seq<Scored> := [];
      for i := 0 to |profiles|
        invariant scored == MatchPool(vacancy, profiles[..i])
      {
        var p := profiles[i];
        assert profiles[..i + 1][..i] == profiles[..i];
        if p.candidateId !in vacancy.assignedCandidates {
          var score := MatchScore(vacancy, p);
          if score > 0.0 {
            scored := scored + [Scored(p, score)];
          }
        }
      }
      assert profiles[..|profiles|] == profiles;
      MatchedProperties(vacancy, profiles, topN);
      r := Take(SortByScore(scored), topN);
    }
  }
}
