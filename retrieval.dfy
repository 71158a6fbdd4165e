/**
 * `CandidateRetriever` (retrieval.py): hybrid candidate search. A semantic
 * signal (a FAISS inner-product index over résumé vectors) and a keyword
 * signal (an SQLite FTS5 table) are fused into one map keyed by candidate id,
 * sorted by score, filtered by structured predicates and truncated.
 *
 * The two indexes are oracles here: the rows FAISS returns for the vectorised
 * query and the candidate ids FTS5 matches for the query text are inputs, and
 * the profile files are a map from candidate id to profile.
 */
module Retrieval {
  import opened Wrappers
  import opened Seqs
  import opened Text
  import opened Profiles
  import opened Ranking

  /** The flat score every keyword hit carries. */
  const KeywordScore: real := 0.5

  /** Added to a keyword hit's score when it meets a semantic hit for the same candidate. */
  const AgreementBonus: real := 0.2

  function Max(a: real, b: real): real {
    if a >= b then a else b
  }

  function Min(a: int, b: int): int {
    if a <= b then a else b
  }

  // ----- Structured filters -----

  /** The filters dictionary; a key that is absent is `None`. */
  datatype Filters = Filters(
    roleCategory: Option<string>,
    minExperience: Option<int>,
    maxExperience: Option<int>,
    location: Option<string>,
    workAuthorization: Option<string>)
  {
    /** `not filters`: no key present. */
    predicate IsEmpty() {
      roleCategory.None? && minExperience.None? && maxExperience.None? && location.None? && workAuthorization.None?
    }
  }

  /** `(profile.get('location') or '').lower()` */
  function LocationText(p: Profile): string {
    Lower(p.location.GetOr(""))
  }

  /** `matches_filters`: every key that is present constrains one profile field. */
  function MatchesFilters(p: Profile, f: Filters): (r: bool)
    ensures r <==>
      && (f.roleCategory.Some? ==> p.roleCategory == Some(f.roleCategory.value))
      && (f.minExperience.Some? ==> f.minExperience.value <= ExperienceOf(p))
      && (f.maxExperience.Some? ==> ExperienceOf(p) <= f.maxExperience.value)
      && (f.location.Some? ==> Contains(LocationText(p), Lower(f.location.value)))
      && (f.workAuthorization.Some? ==> p.workAuthorization == Some(f.workAuthorization.value))
  {
    if f.roleCategory.Some? && p.roleCategory != Some(f.roleCategory.value) then false
    else if f.minExperience.Some? && ExperienceOf(p) < f.minExperience.value then false
    else if f.maxExperience.Some? && ExperienceOf(p) > f.maxExperience.value then false
    else if f.location.Some? && !Contains(LocationText(p), Lower(f.location.value)) then false
    else if f.workAuthorization.Some? && p.workAuthorization != Some(f.workAuthorization.value) then false
    else true
  }

  /** The location filter ignores the case of the filter value. */
  lemma LocationFilterIgnoresCase(p: Profile, f: Filters)
    requires f.location.Some?
    ensures MatchesFilters(p, f) == MatchesFilters(p, f.(location := Some(Lower(f.location.value))))
  {
    LowerIdempotent(f.location.value);
  }

  /** The filtered list: the entries whose profiles satisfy `f`, in their order. */
  function ApplyFilters(s: seq<Scored>, f: Filters): seq<Scored>
    decreases |s|
  {
    if s == [] then []
    else
      var rest := ApplyFilters(s[..|s| - 1], f);
      if MatchesFilters(s[|s| - 1].profile, f) then rest + [s[|s| - 1]] else rest
  }

  /** An entry survives the filters exactly when it is in the input and satisfies them. */
  lemma {:induction false} ApplyFiltersMembers(s: seq<Scored>, f: Filters)
    ensures forall h :: h in ApplyFilters(s, f) <==> h in s && MatchesFilters(h.profile, f)
    decreases |s|
  {
    if s != [] {
      ApplyFiltersMembers(s[..|s| - 1], f);
      assert s == s[..|s| - 1] + [s[|s| - 1]];
    }
  }

  /** Filtering keeps the surviving entries in their original order. */
  lemma {:induction false} ApplyFiltersSubsequence(s: seq<Scored>, f: Filters)
    ensures Subsequence(ApplyFilters(s, f), s)
    decreases |s|
  {
    if s != [] {
      var init, x := s[..|s| - 1], s[|s| - 1];
      ApplyFiltersSubsequence(init, f);
      var rest := ApplyFilters(init, f);
      assert s[..|s| - 1] == init;
      if MatchesFilters(x.profile, f) {
        assert (rest + [x])[..|rest + [x]| - 1] == rest;
      } else if rest != [] {
        ApplyFiltersMembers(init, f);
        assert rest[|rest| - 1] in rest;
      }
    }
  }

  /** Applying the same filters twice gives what applying them once gives. */
  lemma {:induction false} ApplyFiltersIdempotent(s: seq<Scored>, f: Filters)
    ensures ApplyFilters(ApplyFilters(s, f), f) == ApplyFilters(s, f)
    decreases |s|
  {
    if s != [] {
      var init, x := s[..|s| - 1], s[|s| - 1];
      ApplyFiltersIdempotent(init, f);
      var rest := ApplyFilters(init, f);
      if MatchesFilters(x.profile, f) {
        assert (rest + [x])[..|rest + [x]| - 1] == rest;
      }
    }
  }

  lemma {:induction false} ApplyFiltersEmpty(s: seq<Scored>, f: Filters)
    requires f.IsEmpty()
    ensures ApplyFilters(s, f) == s
    decreases |s|
  {
    if s != [] {
      ApplyFiltersEmpty(s[..|s| - 1], f);
    }
  }

  lemma {:induction false} ApplyFiltersSorted(s: seq<Scored>, f: Filters)
    requires SortedDesc(s)
    ensures SortedDesc(ApplyFilters(s, f))
    decreases |s|
  {
    if s != [] {
      var init, x := s[..|s| - 1], s[|s| - 1];
      ApplyFiltersSorted(init, f);
      ApplyFiltersMembers(init, f);
      var rest := ApplyFilters(init, f);
      if MatchesFilters(x.profile, f) {
        forall i | 0 <= i < |rest| ensures rest[i].score >= x.score {
          assert rest[i] in init;
        }
      }
    }
  }

  lemma {:induction false} ApplyFiltersDistinct(s: seq<Scored>, f: Filters)
    requires DistinctIds(s)
    ensures DistinctIds(ApplyFilters(s, f))
    decreases |s|
  {
    if s != [] {
      var init, x := s[..|s| - 1], s[|s| - 1];
      ApplyFiltersDistinct(init, f);
      ApplyFiltersMembers(init, f);
      var rest := ApplyFilters(init, f);
      if MatchesFilters(x.profile, f) {
        forall i | 0 <= i < |rest| ensures IdOf(rest[i]) != IdOf(x) {
          assert rest[i] in init;
          var j :| 0 <= j < |init| && init[j] == rest[i];
          assert s[j] == init[j];
        }
      }
    }
  }

  // ----- Score fusion -----

  function Ids(s: seq<Scored>): (r: seq<string>)
    ensures |r| == |s|
  {
    seq(|s|, i requires 0 <= i < |s| => IdOf(s[i]))
  }

  /** The keys of a dictionary filled from `xs` in order: first occurrences, in order. */
  function Dedup(xs: seq<string>): (r: seq<string>)
    ensures Distinct(r)
    ensures forall x :: x in r <==> x in xs
    decreases |xs|
  {
    if xs == [] then []
    else
      var d := Dedup(xs[..|xs| - 1]);
      var x := xs[|xs| - 1];
      assert xs == xs[..|xs| - 1] + [x];
      if x in d then d else d + [x]
  }

  /** The last entry of `s` for candidate `id`: what `combined[id] = profile` leaves behind. */
  function LastWith(s: seq<Scored>, id: string): (h: Scored)
    requires id in Ids(s)
    ensures h in s && IdOf(h) == id
    decreases |s|
  {
    var x := s[|s| - 1];
    if IdOf(x) == id then x
    else
      assert Ids(s) == Ids(s[..|s| - 1]) + [IdOf(x)];
      LastWith(s[..|s| - 1], id)
  }

  /** The first entry of `s` for candidate `id`. */
  function FirstWith(s: seq<Scored>, id: string): (h: Scored)
    requires id in Ids(s)
    ensures h in s && IdOf(h) == id
    decreases |s|
  {
    var x := s[|s| - 1];
    assert Ids(s) == Ids(s[..|s| - 1]) + [IdOf(x)];
    if id in Ids(s[..|s| - 1]) then FirstWith(s[..|s| - 1], id) else x
  }

  /**
   * The fused score of a candidate, stated by the signals that found it:
   * found semantically only, it keeps its (last) semantic score; found by
   * both, it gets the larger of that score and 0.5 + 0.2; found by keyword
   * only, it gets 0.5, or 0.5 + 0.2 when the keyword list names it twice.
   */
  function FusedScore(sem: seq<Scored>, kw: seq<Scored>, id: string): real
    requires id in Ids(sem) || id in Ids(kw)
  {
    if id in Ids(sem) then
      if id in Ids(kw) then Max(LastWith(sem, id).score, KeywordScore + AgreementBonus)
      else LastWith(sem, id).score
    else if multiset(Ids(kw))[id] >= 2 then KeywordScore + AgreementBonus
    else KeywordScore
  }

  function FusedEntry(sem: seq<Scored>, kw: seq<Scored>, id: string): Scored
    requires id in Ids(sem) || id in Ids(kw)
  {
    Scored(if id in Ids(sem) then LastWith(sem, id).profile else FirstWith(kw, id).profile, FusedScore(sem, kw, id))
  }

  /** `list(combined.values())` after both loops: one entry per candidate, in first-seen order. */
  function Fused(sem: seq<Scored>, kw: seq<Scored>): (r: seq<Scored>)
    ensures Ids(r) == Dedup(Ids(sem) + Ids(kw))
  {
    var d := Dedup(Ids(sem) + Ids(kw));
    assert forall x | x in d :: x in Ids(sem) || x in Ids(kw);
    seq(|d|, i requires 0 <= i < |d| => FusedEntry(sem, kw, d[i]))
  }

  /** Each candidate occurs at most once among the fused entries. */
  lemma FusedDistinct(sem: seq<Scored>, kw: seq<Scored>)
    ensures DistinctIds(Fused(sem, kw))
  {
    var r := Fused(sem, kw);
    assert forall i | 0 <= i < |r| :: IdOf(r[i]) == Ids(r)[i];
  }

  /** A candidate found by both signals outscores every candidate the keyword signal found once and alone. */
  lemma {:induction false} AgreementOutranksKeywordOnly(sem: seq<Scored>, kw: seq<Scored>, both: string, kwOnly: string)
    requires both in Ids(sem) && both in Ids(kw)
    requires kwOnly !in Ids(sem) && multiset(Ids(kw))[kwOnly] == 1
    ensures FusedScore(sem, kw, kwOnly) == KeywordScore
    ensures FusedScore(sem, kw, both) >= KeywordScore + AgreementBonus > FusedScore(sem, kw, kwOnly)
  {
    assert kwOnly in multiset(Ids(kw));
  }

  lemma FusedStepOther(sem: seq<Scored>, kw: seq<Scored>, j: nat, id: string)
    requires j < |kw| && id != IdOf(kw[j])
    requires id in Ids(sem) || id in Ids(kw[..j])
    ensures id in Ids(sem) || id in Ids(kw[..j + 1])
    ensures FusedEntry(sem, kw[..j + 1], id) == FusedEntry(sem, kw[..j], id)
  {
    assert Ids(kw[..j + 1]) == Ids(kw[..j]) + [IdOf(kw[j])];
    assert kw[..j + 1][..j] == kw[..j];
  }

  lemma FusedStepSame(sem: seq<Scored>, kw: seq<Scored>, j: nat, e: Scored)
    requires j < |kw| && kw[j].score == KeywordScore
    requires var id := IdOf(kw[j]);
      (id in Ids(sem) || id in Ids(kw[..j])) && e == FusedEntry(sem, kw[..j], id)
    ensures IdOf(kw[j]) in Ids(kw[..j + 1])
    ensures FusedEntry(sem, kw[..j + 1], IdOf(kw[j])) == Scored(e.profile, Max(e.score, kw[j].score + AgreementBonus))
  {
    var id := IdOf(kw[j]);
    assert Ids(kw[..j + 1]) == Ids(kw[..j]) + [id];
    assert kw[..j + 1][..j] == kw[..j];
    if id !in Ids(sem) {
      assert id in multiset(Ids(kw[..j]));
    }
  }

  lemma FusedStepNew(sem: seq<Scored>, kw: seq<Scored>, j: nat)
    requires j < |kw| && kw[j].score == KeywordScore
    requires IdOf(kw[j]) !in Ids(sem) && IdOf(kw[j]) !in Ids(kw[..j])
    ensures IdOf(kw[j]) in Ids(kw[..j + 1])
    ensures FusedEntry(sem, kw[..j + 1], IdOf(kw[j])) == kw[j]
  {
    var id := IdOf(kw[j]);
    assert Ids(kw[..j + 1]) == Ids(kw[..j]) + [id];
    assert kw[..j + 1][..j] == kw[..j];
    assert multiset(Ids(kw[..j]))[id] == 0;
  }

  /** The first loop of `search`: `combined[profile['candidate_id']] = profile` for every semantic hit. */
  method SeedCombined(sem: seq<Scored>) returns (keys: seq<string>, combined: map<string, Scored>)
    ensures keys == Dedup(Ids(sem))
    ensures forall id :: id in combined <==> id in keys
    ensures forall id | id in combined :: id in Ids(sem) && combined[id] == LastWith(sem, id)
  {
    keys, combined := [], map[];
    for i := 0 to |sem|
      invariant keys == Dedup(Ids(sem[..i]))
      invariant forall id :: id in combined <==> id in keys
      invariant forall id | id in combined :: id in Ids(sem[..i]) && combined[id] == LastWith(sem[..i], id)
    {
      var cid := IdOf(sem[i]);
      SeedStep(sem, i);
      DedupSnoc(Ids(sem[..i]), cid);
      ghost var before := combined;
      if cid !in combined {
        keys := keys + [cid];
      }
      combined := combined[cid := sem[i]];
      forall id | id in combined
        ensures id in Ids(sem[..i + 1]) && combined[id] == LastWith(sem[..i + 1], id)
      {
        if id != cid {
          assert combined[id] == before[id];
        }
      }
    }
    assert sem[..|sem|] == sem;
  }

  lemma DedupSnoc(xs: seq<string>, x: string)
    ensures Dedup(xs + [x]) == if x in Dedup(xs) then Dedup(xs) else Dedup(xs) + [x]
  {
    assert (xs + [x])[..|xs|] == xs;
  }

  lemma SeedStep(sem: seq<Scored>, i: nat)
    requires i < |sem|
    ensures Ids(sem[..i + 1]) == Ids(sem[..i]) + [IdOf(sem[i])]
    ensures forall id | id in Ids(sem[..i]) && id != IdOf(sem[i]) :: LastWith(sem[..i + 1], id) == LastWith(sem[..i], id)
    ensures IdOf(sem[i]) in Ids(sem[..i + 1]) && LastWith(sem[..i + 1], IdOf(sem[i])) == sem[i]
  {
    assert sem[..i + 1][..i] == sem[..i];
  }

  /** After merging the first `j` keyword hits, `keys` and `combined` are the fusion of the semantic hits and those `j` hits. */
  ghost predicate Merged(sem: seq<Scored>, kw: seq<Scored>, j: nat, keys: seq<string>, combined: map<string, Scored>)
    requires j <= |kw|
  {
    && keys == Dedup(Ids(sem) + Ids(kw[..j]))
    && (forall id :: id in combined <==> id in keys)
    && (forall id | id in combined :: (id in Ids(sem) || id in Ids(kw[..j])) && combined[id] == FusedEntry(sem, kw[..j], id))
  }

  /** The second loop of `search`: a keyword hit raises an existing entry's score or is inserted. */
  method MergeKeyword(sem: seq<Scored>, kw: seq<Scored>, keys0: seq<string>, combined0: map<string, Scored>)
    returns (keys: seq<string>, combined: map<string, Scored>)
    requires forall i | 0 <= i < |kw| :: kw[i].score == KeywordScore
    requires keys0 == Dedup(Ids(sem))
    requires forall id :: id in combined0 <==> id in keys0
    requires forall id | id in combined0 :: id in Ids(sem) && combined0[id] == LastWith(sem, id)
    ensures keys == Dedup(Ids(sem) + Ids(kw))
    ensures forall id :: id in combined <==> id in keys
    ensures forall id | id in combined :: (id in Ids(sem) || id in Ids(kw)) && combined[id] == FusedEntry(sem, kw, id)
  {
    keys, combined := keys0, combined0;
    MergeStart(sem, kw, keys0, combined0);
    for j := 0 to |kw|
      invariant Merged(sem, kw, j, keys, combined)
    {
      var cid := IdOf(kw[j]);
      ghost var keysBefore, before := keys, combined;
      if cid in combined {
        combined := combined[cid := Scored(combined[cid].profile, Max(combined[cid].score, kw[j].score + AgreementBonus))];
      } else {
        keys := keys + [cid];
        combined := combined[cid := kw[j]];
      }
      MergeStep(sem, kw, j, keysBefore, before, keys, combined);
    }
    assert kw[..|kw|] == kw;
  }

  lemma MergeStart(sem: seq<Scored>, kw: seq<Scored>, keys: seq<string>, combined: map<string, Scored>)
    requires keys == Dedup(Ids(sem))
    requires forall id :: id in combined <==> id in keys
    requires forall id | id in combined :: id in Ids(sem) && combined[id] == LastWith(sem, id)
    ensures Merged(sem, kw, 0, keys, combined)
  {
    assert kw[..0] == [];
    assert Ids(sem) + Ids(kw[..0]) == Ids(sem);
  }

  /** The update the keyword loop makes for hit `j`: raise the entry of a known id, or insert the hit. */
  ghost predicate MergeUpdate(kw: seq<Scored>, j: nat, keys: seq<string>, combined: map<string, Scored>,
                              keys': seq<string>, combined': map<string, Scored>)
    requires j < |kw|
  {
    var cid := IdOf(kw[j]);
    if cid in combined then
      keys' == keys && combined' == combined[cid := Scored(combined[cid].profile, Max(combined[cid].score, kw[j].score + AgreementBonus))]
    else
      keys' == keys + [cid] && combined' == combined[cid := kw[j]]
  }

  /** One iteration of the keyword loop keeps `Merged`. */
  lemma MergeStep(sem: seq<Scored>, kw: seq<Scored>, j: nat, keys: seq<string>, combined: map<string, Scored>,
                  keys': seq<string>, combined': map<string, Scored>)
    requires j < |kw| && kw[j].score == KeywordScore
    requires Merged(sem, kw, j, keys, combined)
    requires MergeUpdate(kw, j, keys, combined, keys', combined')
    ensures Merged(sem, kw, j + 1, keys', combined')
  {
    MergeStepDomain(sem, kw, j, keys, combined, keys', combined');
    MergeStepEntry(sem, kw, j, keys, combined, keys', combined');
    MergeOthers(sem, kw, j, keys, combined, keys', combined');
  }

  /** The key order and the domain of `combined` after one more keyword hit. */
  lemma MergeStepDomain(sem: seq<Scored>, kw: seq<Scored>, j: nat, keys: seq<string>, combined: map<string, Scored>,
                        keys': seq<string>, combined': map<string, Scored>)
    requires j < |kw|
    requires Merged(sem, kw, j, keys, combined)
    requires MergeUpdate(kw, j, keys, combined, keys', combined')
    ensures keys' == Dedup(Ids(sem) + Ids(kw[..j + 1]))
    ensures forall id :: id in combined' <==> id in keys'
  {
    MergeStepKeys(sem, kw, j);
    DedupSnoc(Ids(sem) + Ids(kw[..j]), IdOf(kw[j]));
  }

  /** The entry of the merged hit's id is its fused entry. */
  lemma MergeStepEntry(sem: seq<Scored>, kw: seq<Scored>, j: nat, keys: seq<string>, combined: map<string, Scored>,
                       keys': seq<string>, combined': map<string, Scored>)
    requires j < |kw| && kw[j].score == KeywordScore
    requires Merged(sem, kw, j, keys, combined)
    requires MergeUpdate(kw, j, keys, combined, keys', combined')
    ensures IdOf(kw[j]) in combined' && IdOf(kw[j]) in Ids(kw[..j + 1])
    ensures combined'[IdOf(kw[j])] == FusedEntry(sem, kw[..j + 1], IdOf(kw[j]))
  {
    var cid := IdOf(kw[j]);
    if cid in combined {
      FusedStepSame(sem, kw, j, combined[cid]);
    } else {
      assert cid !in Ids(sem) + Ids(kw[..j]);
      FusedStepNew(sem, kw, j);
    }
  }

  /** The entries of the other ids stay what fusion assigns them when one more keyword hit is merged. */
  lemma MergeOthers(sem: seq<Scored>, kw: seq<Scored>, j: nat, keys: seq<string>, combined: map<string, Scored>,
                    keys': seq<string>, combined': map<string, Scored>)
    requires j < |kw|
    requires Merged(sem, kw, j, keys, combined)
    requires MergeUpdate(kw, j, keys, combined, keys', combined')
    ensures forall id | id in combined' && id != IdOf(kw[j]) ::
      (id in Ids(sem) || id in Ids(kw[..j + 1])) && combined'[id] == FusedEntry(sem, kw[..j + 1], id)
  {
    forall id | id in combined' && id != IdOf(kw[j])
      ensures (id in Ids(sem) || id in Ids(kw[..j + 1])) && combined'[id] == FusedEntry(sem, kw[..j + 1], id)
    {
      assert combined'[id] == combined[id];
      FusedStepOther(sem, kw, j, id);
    }
  }

  lemma MergeStepKeys(sem: seq<Scored>, kw: seq<Scored>, j: nat)
    requires j < |kw|
    ensures Ids(sem) + Ids(kw[..j + 1]) == (Ids(sem) + Ids(kw[..j])) + [IdOf(kw[j])]
  {
    assert Ids(kw[..j + 1]) == Ids(kw[..j]) + [IdOf(kw[j])];
  }

  /**
   * The two loops of `search` that build `combined`, and `list(combined.values())`.
   * Python's dict keeps insertion order: `keys` is that order.
   */
  method Fuse(sem: seq<Scored>, kw: seq<Scored>) returns (r: seq<Scored>)
    requires forall i | 0 <= i < |kw| :: kw[i].score == KeywordScore
    ensures r == Fused(sem, kw)
  {
    var keys, combined := SeedCombined(sem);
    keys, combined := MergeKeyword(sem, kw, keys, combined);
    r := seq(|keys|, i requires 0 <= i < |keys| => combined[keys[i]]);
  }

  // ----- The two signals -----

  /** The loaded artifacts: the FAISS index and its `meta.json` id list, the vectorizer, the keyword database. */
  datatype Indexes = Indexes(hasFaissIndex: bool, candidateIds: seq<string>, hasVectorizer: bool, hasKeywordDb: bool)
  {
    predicate SemanticAvailable() {
      hasFaissIndex && hasVectorizer
    }
  }

  /** One result row of `faiss_index.search`: a similarity and a row position, -1 for an unfilled slot. */
  datatype Row = Row(distance: real, position: int)

  /** What FAISS can return: row positions are indices or -1. */
  ghost predicate FaissRows(rows: seq<Row>) {
    forall i | 0 <= i < |rows| :: -1 <= rows[i].position
  }

  /** Rows whose position names a candidate, hydrated from the profile store; see the Findings for the guard. */
  function HydrateRows(ids: seq<string>, store: map<string, Profile>, rows: seq<Row>): (r: seq<Scored>)
    ensures |r| <= |rows|
    decreases |rows|
  {
    if rows == [] then []
    else
      var rest := HydrateRows(ids, store, rows[..|rows| - 1]);
      var row := rows[|rows| - 1];
      if 0 <= row.position < |ids| && ids[row.position] in store then rest + [Scored(store[ids[row.position]], row.distance)]
      else rest
  }

  /** The hydration loop exactly as written: the guard is only `idx < len(self.candidate_ids)`, so -1 reads the last id. */
  function HydrateRowsAsWritten(ids: seq<string>, store: map<string, Profile>, rows: seq<Row>): (r: seq<Scored>)
    requires FaissRows(rows) && (rows != [] ==> ids != [])
    ensures |r| <= |rows|
    decreases |rows|
  {
    if rows == [] then []
    else
      var rest := HydrateRowsAsWritten(ids, store, rows[..|rows| - 1]);
      var row := rows[|rows| - 1];
      if row.position < |ids| then
        var cid := if row.position >= 0 then ids[row.position] else ids[|ids| + row.position];
        if cid in store then rest + [Scored(store[cid], row.distance)] else rest
      else rest
  }

  /** Every hydrated hit comes from a row whose position names that candidate, with that row's similarity. */
  lemma {:induction false} HydrateRowsFromFilledRows(ids: seq<string>, store: map<string, Profile>, rows: seq<Row>)
    ensures forall h | h in HydrateRows(ids, store, rows) ::
      exists row | row in rows :: 0 <= row.position < |ids| && ids[row.position] in store && h == Scored(store[ids[row.position]], row.distance)
    ensures forall row | row in rows && 0 <= row.position < |ids| && ids[row.position] in store ::
      Scored(store[ids[row.position]], row.distance) in HydrateRows(ids, store, rows)
    decreases |rows|
  {
    if rows != [] {
      var init := rows[..|rows| - 1];
      HydrateRowsFromFilledRows(ids, store, init);
      forall row | row in init ensures row in rows { }
      assert rows == init + [rows[|rows| - 1]];
    }
  }

  /** An index with one vector and an id list of two: FAISS pads the second slot with position -1. */
  lemma PaddingRowReadsLastId()
    ensures var ids := ["a", "b"];
      var store := map["a" := Blank("a"), "b" := Blank("b")];
      var rows := [Row(0.9, 0), Row(-1.0, -1)];
      && |HydrateRowsAsWritten(ids, store, rows)| == 2
      && IdOf(HydrateRowsAsWritten(ids, store, rows)[1]) == "b"
      && HydrateRows(ids, store, rows) == [Scored(Blank("a"), 0.9)]
  {
    var ids := ["a", "b"];
    var store := map["a" := Blank("a"), "b" := Blank("b")];
    var rows := [Row(0.9, 0), Row(-1.0, -1)];
    assert rows[..1] == [Row(0.9, 0)];
    assert rows[..1][..0] == [];
  }

  function Blank(id: string): Profile {
    Profile(id, None, None, [], [], None, [], Contact(None, None, None, None), None, None, None, None, None, "", "", None, None, None)
  }

  /** `semantic_search` as a function of the FAISS answer `rows`. */
  function SemanticHits(ix: Indexes, store: map<string, Profile>, rows: seq<Row>): seq<Scored> {
    if ix.SemanticAvailable() then HydrateRows(ix.candidateIds, store, rows) else []
  }

  /**
   * `semantic_search(query, k)`: `rows` is FAISS's answer to a request for
   * `min(k, len(candidate_ids))` neighbours of the vectorised query.
   */
  method SemanticSearch(ix: Indexes, store: map<string, Profile>, k: nat, rows: seq<Row>) returns (r: seq<Scored>)
    requires ix.SemanticAvailable() ==> |rows| == Min(k, |ix.candidateIds|)
    ensures r == SemanticHits(ix, store, rows)
    ensures |r| <= Min(k, |ix.candidateIds|)
    ensures !ix.SemanticAvailable() ==> r == []
  {
    if !ix.SemanticAvailable() {
      return [];
    }
    r := [];
    for i := 0 to |rows|
      invariant r == HydrateRows(ix.candidateIds, store, rows[..i])
    {
      assert rows[..i + 1][..i] == rows[..i];
      var row := rows[i];
      if 0 <= row.position < |ix.candidateIds| {
        var cid := ix.candidateIds[row.position];
        if cid in store {
          r := r + [Scored(store[cid], row.distance)];
        }
      }
    }
    assert rows[..|rows|] == rows;
  }

  /** What FTS5 answered to `... WHERE profiles_fts MATCH ?`: matching ids in its order, or an SQL error. */
  datatype FtsAnswer = Matches(ids: seq<string>) | SqlError

  datatype SearchError = KeywordQueryFailed

  /** Matched ids hydrated from the profile store, each with the flat keyword score. */
  function HydrateIds(store: map<string, Profile>, ids: seq<string>): (r: seq<Scored>)
    ensures |r| <= |ids|
    ensures forall i | 0 <= i < |r| :: r[i].score == KeywordScore
    decreases |ids|
  {
    if ids == [] then []
    else
      var rest := HydrateIds(store, ids[..|ids| - 1]);
      var cid := ids[|ids| - 1];
      if cid in store then rest + [Scored(store[cid], KeywordScore)] else rest
  }

  /** A hit is a stored profile of a matched id, with the keyword score; a matched id missing from the store gives none. */
  lemma {:induction false} HydrateIdsMembers(store: map<string, Profile>, ids: seq<string>)
    ensures forall h :: h in HydrateIds(store, ids) <==> exists id | id in ids && id in store :: h == Scored(store[id], KeywordScore)
    decreases |ids|
  {
    if ids != [] {
      var init := ids[..|ids| - 1];
      HydrateIdsMembers(store, init);
      assert ids == init + [ids[|ids| - 1]];
    }
  }

  /** `keyword_search` as a function of the FTS5 answer. */
  function KeywordHits(ix: Indexes, store: map<string, Profile>, k: nat, answer: FtsAnswer): Result<seq<Scored>, SearchError> {
    if !ix.hasKeywordDb then Success([])
    else if answer.SqlError? then Failure(KeywordQueryFailed)
    else Success(HydrateIds(store, Take(answer.ids, k)))
  }

  /** `keyword_search(query, k)`: `LIMIT k` keeps the first `k` matches. */
  method KeywordSearch(ix: Indexes, store: map<string, Profile>, k: nat, answer: FtsAnswer) returns (r: Result<seq<Scored>, SearchError>)
    ensures r == KeywordHits(ix, store, k, answer)
    ensures !ix.hasKeywordDb ==> r == Success([])
    ensures r.Failure? <==> ix.hasKeywordDb && answer.SqlError?
    ensures r.Success? ==> |r.value| <= k && forall i | 0 <= i < |r.value| :: r.value[i].score == KeywordScore
  {
    if !ix.hasKeywordDb {
      return Success([]);
    }
    if answer.SqlError? {
      return Failure(KeywordQueryFailed);
    }
    var rows := Take(answer.ids, k);
    var hits: seq<Scored> := [];
    for i := 0 to |rows|
      invariant hits == HydrateIds(store, rows[..i])
    {
      assert rows[..i + 1][..i] == rows[..i];
      if rows[i] in store {
        hits := hits + [Scored(store[rows[i]], KeywordScore)];
      }
    }
    assert rows[..|rows|] == rows;
    r := Success(hits);
  }

  /** Sort, then filter, then keep the first `k`. */
  function Ranked(fused: seq<Scored>, f: Filters, k: nat): seq<Scored> {
    Take(ApplyFilters(SortByScore(fused), f), k)
  }

  /** What the ranking step promises: at most `k` entries, distinct ids, non-increasing scores, all passing the filters. */
  lemma RankedProperties(fused: seq<Scored>, f: Filters, k: nat)
    requires DistinctIds(fused)
    ensures var r := Ranked(fused, f, k);
      && |r| <= k && DistinctIds(r) && SortedDesc(r)
      && forall i | 0 <= i < |r| :: MatchesFilters(r[i].profile, f)
  {
    var sorted := SortByScore(fused);
    SortDistinct(fused);
    SortSorted(fused);
    ApplyFiltersSorted(sorted, f);
    ApplyFiltersDistinct(sorted, f);
    ApplyFiltersMembers(sorted, f);
    var filtered := ApplyFilters(sorted, f);
    var r := Ranked(fused, f, k);
    assert forall i | 0 <= i < |r| :: r[i] == filtered[i] && r[i] in filtered;
  }

  /** The filtering loop of `search`. */
  method FilterResults(results: seq<Scored>, filters: Filters) returns (filtered: seq<Scored>)
    ensures filtered == ApplyFilters(results, filters)
  {
    filtered := [];
    for i := 0 to |results|
      invariant filtered == ApplyFilters(results[..i], filters)
    {
      assert results[..i + 1][..i] == results[..i];
      if MatchesFilters(results[i].profile, filters) {
        filtered := filtered + [results[i]];
      }
    }
    assert results[..|results|] == results;
  }

  /**
   * `search(query, k, filters)`: `rows` answers the semantic request for
   * `min(2k, len(candidate_ids))` neighbours, `answer` the keyword query.
   */
  method Search(ix: Indexes, store: map<string, Profile>, query: string, k: nat, filters: Filters, rows: seq<Row>, answer: FtsAnswer)
    returns (r: Result<seq<Scored>, SearchError>)
    requires ix.SemanticAvailable() ==> |rows| == Min(2 * k, |ix.candidateIds|)
    ensures query == "" ==> r == Success([])
    ensures r.Failure? <==> query != "" && ix.hasKeywordDb && answer.SqlError?
    ensures r.Success? && query != "" ==>
      r.value == Ranked(Fused(SemanticHits(ix, store, rows), KeywordHits(ix, store, k, answer).value), filters, k)
    ensures r.Success? ==> |r.value| <= k && DistinctIds(r.value) && SortedDesc(r.value)
    ensures r.Success? ==> forall i | 0 <= i < |r.value| :: MatchesFilters(r.value[i].profile, filters)
  {
    if query == "" {
      return Success([]);
    }
    var semantic := SemanticSearch(ix, store, 2 * k, rows);
    var keyword := KeywordSearch(ix, store, k, answer);
    if keyword.Failure? {
      return Failure(keyword.error);
    }
    var fused := Fuse(semantic, keyword.value);
    var results := SortByScore(fused);
    if !filters.IsEmpty() {
      results := FilterResults(results, filters);
    } else {
      ApplyFiltersEmpty(results, filters);
    }
    r := Success(Take(results, k));
    FusedDistinct(semantic, keyword.value);
    RankedProperties(fused, filters, k);
  }
}
