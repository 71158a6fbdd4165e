# Recruitment automation: a verified model of the search and bookkeeping core

This project is a Dafny model of the core of a résumé search and vacancy
tracking tool. The tool parses résumés into candidate profiles. It finds
candidates with a hybrid search, which fuses a FAISS semantic ranking with a
SQLite FTS5 keyword ranking. It also keeps a store of vacancies with
candidate matching, and a dashboard of recruitment counters. A Streamlit
front end adds masking of personal data and requirement extraction from job
descriptions.

The model has one module per concern:

- `Wrappers`: `Option` and `Result`.
- `Seqs`: repeat-free sequences, order-preserving subsequences and prefixes.
- `Text`: Python's string operations used by the tool:
  - `lower` is restricted to ASCII;
  - `in` on strings (substring);
  - `split` and `join`;
  - `strip`;
  - the shared "keywords the text contains" loop.
- `Counters`: a `defaultdict(int)` with insertion order.
- `Profiles`: the candidate profile record. A search hit is a profile paired
  with its `search_score`.
- `Ranking`: `sort(key=score, reverse=True)`. Python's sort is stable, so the
  model proves the result is sorted, a permutation of the input, and stable.
- `Retrieval`: `CandidateRetriever`, covering the two signals, fusion,
  filtering and ranking. The FAISS answer and the FTS5 answer are inputs.
- `Vacancies`: class `VacancyManager`, whose map of vacancies and key order
  the methods update in place.
- `Kpi`: class `KPIDashboard`, holding its counters, transitions and
  rejection counts.
- `Resumes`: the text helpers of `EnhancedLocalResumeParser`, and the gating
  and profile shape of `parse_resume`. The extracted text and the regex
  answers are inputs.
- `App`: `mask_pii`, `extract_key_requirements`, the filter dictionary and
  the required-skills post-filter of the search page, and the match badge.

Scores are modelled as exact reals. Python's `search_score` floats only pass
through `max` and are compared with constants. The model also follows three
conventions for Python's dictionaries:

- A dictionary the source reads with `.get(key, default)` becomes a field
  with that default already applied.
- A missing key and a `None` value are treated alike.
- The insertion order of a `dict`, which `values()` and the result order
  depend on, is kept explicitly as a key sequence.

Where the design text of the tool and its code disagree, the model follows
the code:

- **Keyword score.** The design describes keyword hits as scoring 0.4 and
  agreement as adding a bonus. The code gives every keyword hit 0.5 and sets
  a candidate found by both signals to `max(semantic, 0.5 + 0.2)`
  (retrieval.py:75, 91). `Retrieval.KeywordScore` and
  `Retrieval.AgreementBonus` carry the code's constants.
- **Keyword errors.** The design says keyword queries are sanitised. The
  code passes the query to `MATCH` unchanged, so an FTS5 syntax error ends
  the search with an exception. The model returns `Failure` there.

## Model

| member | source | states |
|---|---|---|
| Retrieval.MatchesFilters | retrieval.py:104-121 | A profile passes iff each present filter holds. Role and authorisation must be equal. Experience is inclusive of both bounds, with a missing value read as 0. Location is a case-insensitive substring test, with a missing location read as "". Absent filters impose nothing. |
| Retrieval.LocationFilterIgnoresCase | retrieval.py:114-117 | Lower-casing the location filter does not change the verdict. |
| Retrieval.ApplyFiltersMembers | retrieval.py:96-101 | The filtered results are exactly the results that satisfy the filters. |
| Retrieval.ApplyFiltersSubsequence | retrieval.py:96-101 | Filtering keeps the order of the results. |
| Retrieval.ApplyFiltersIdempotent | retrieval.py:96-101 | Filtering twice with the same filters equals filtering once. |
| Retrieval.ApplyFiltersEmpty | retrieval.py:96 | An empty filter dictionary keeps every result, like skipping the filter step. |
| Retrieval.ApplyFiltersSorted | retrieval.py:95-101 | Filtering a sorted list leaves it sorted. |
| Retrieval.ApplyFiltersDistinct | retrieval.py:96-101 | Filtering keeps candidate ids distinct. |
| Retrieval.FilterResults | retrieval.py:97-101 | The filtering loop computes the filtered subsequence. |
| Retrieval.Dedup | retrieval.py:85-94 | The keys of the `combined` dict hold each id once, exactly the ids seen, in first-seen order. |
| Retrieval.Fused | retrieval.py:85-94 | The fused entries list the ids of the semantic hits, then those of the keyword-only hits, each once. |
| Retrieval.FusedDistinct | retrieval.py:85-94 | Each candidate occurs at most once after fusion. |
| Retrieval.AgreementOutranksKeywordOnly | retrieval.py:75-93 | A keyword-only hit scores 0.5. A hit found by both signals scores at least 0.7, so it outranks every keyword-only hit. |
| Retrieval.SeedCombined | retrieval.py:85-87 | Seeding `combined` from the semantic list keeps, per id, the last semantic hit with that id. |
| Retrieval.MergeKeyword | retrieval.py:88-93 | Merging the keyword list gives an existing entry `max(score, 0.5 + 0.2)` and inserts new ids with 0.5. The result equals the fused entry of every id. |
| Retrieval.Fuse | retrieval.py:85-94 | `list(combined.values())` after both loops equals `Fused`. |
| Retrieval.HydrateRows | retrieval.py:47-55 | Hydrated hits never outnumber the FAISS rows (corrected guard; see Findings). |
| Retrieval.HydrateRowsFromFilledRows | retrieval.py:48-54 | Every semantic hit comes from a filled row that names a stored candidate, and carries that row's similarity. Conversely, every row whose position names a stored candidate yields that profile with that row's similarity. |
| Retrieval.HydrateRowsAsWritten | retrieval.py:48-54 | The hydration loop with the guard as written; it also admits position -1. |
| Retrieval.PaddingRowReadsLastId | retrieval.py:46-50 | With an index of one vector and two ids, the padding row reads the last id as a second hit. The corrected loop drops it. |
| Retrieval.SemanticSearch | retrieval.py:40-55 | With no index or no vectorizer the result is []. Otherwise it is the hydrated rows, at most min(k, number of ids) (corrected guard; see Findings). |
| Retrieval.HydrateIds | retrieval.py:71-76 | Every keyword hit scores 0.5, and there are no more hits than ids returned. |
| Retrieval.HydrateIdsMembers | retrieval.py:71-76 | A keyword hit is exactly the stored profile of a matched id, scored 0.5. A matched id missing from the store gives no hit. |
| Retrieval.KeywordSearch | retrieval.py:57-78 | Without the database the result is []. An FTS5 error is a failure. Otherwise there are at most k hits, each scored 0.5. |
| Retrieval.RankedProperties | retrieval.py:94-102 | Sort, filter, then truncate gives at most k entries. They have distinct ids and non-increasing scores, and all pass the filters. |
| Retrieval.Search | retrieval.py:80-102 | An empty query gives []. The search fails iff the keyword query fails. Otherwise the result is the ranked fusion of both signals: at most k distinct, sorted results that pass the filters (corrected guard for the semantic rows; see Findings). |
| Ranking.SortSorted | retrieval.py:95 | The sort yields non-increasing scores. |
| Ranking.SortPermutation | retrieval.py:95 | The sort only reorders. |
| Ranking.SortStable | retrieval.py:95 | Entries with equal scores keep their input order. |
| Ranking.SortDistinct | retrieval.py:95 | The sort keeps ids distinct. |
| Ranking.InsertPermutation | retrieval.py:95 | One insertion step only reorders. |
| Ranking.InsertSorted | retrieval.py:95 | One insertion step keeps the order sorted. |
| Ranking.InsertStable | retrieval.py:95 | One insertion step puts the new entry ahead of the entries with its score and keeps their order. |
| Ranking.InsertDistinct | retrieval.py:95 | One insertion step of a new id keeps ids distinct. |
| Counters.Inc | kpi_dashboard.py:181 | `counter[key] += 1` on a `defaultdict(int)`. |
| Counters.IncGet | kpi_dashboard.py:181 | The increment raises only the given key's count, by one. |
| Counters.IncTotal | vacancy_management.py:189-190 | Each increment adds one to the sum of all counts. |
| Counters.IncWellFormed | kpi_dashboard.py:181 | The counter keeps each key once. |
| Vacancies.VacancyManager.constructor | vacancy_management.py:15-18 | The store starts empty (the JSON load is not modelled). |
| Vacancies.VacancyManager.SaveVacancy | vacancy_management.py:27-32 | The record is stored under its id. A new id is appended to the key order. |
| Vacancies.VacancyManager.CreateVacancyFromRole | vacancy_management.py:34-67 | Returns the first Open vacancy with that role and changes nothing. Otherwise stores and returns a new record: status Open, no candidates, no notes, minimum experience 0, priority Medium. |
| Vacancies.VacancyIdIgnoresSpaces | vacancy_management.py:43 | "Data Engineer" and "Data_Engineer" created in the same second get the same id. |
| Vacancies.VacancyManager.AutoCreateVacancies | vacancy_management.py:69-91 | Counts one per role processed. No record is removed and the key order only grows. Every new key is the id of a role's new vacancy, and only records under such ids can change. When those ids are new and pairwise different, every role ends with an Open vacancy. |
| Vacancies.KeepOpen | vacancy_management.py:84-88 | Creating the vacancy of one more role keeps the Open vacancies of the earlier roles, when the new id is fresh. |
| Vacancies.BatchStep | vacancy_management.py:84-91 | One more call in the loop that either reuses a record or saves the role's vacancy under its new id keeps the batch invariant. Keys and order only grow. New keys are new ids of roles already processed. Records under other ids stay unchanged. With fresh ids, every processed role has an Open vacancy. |
| Vacancies.VacancyManager.AssignCandidate | vacancy_management.py:93-108 | Succeeds iff the vacancy exists and does not list the candidate. On success the id is appended and nothing else changes; otherwise the store is unchanged. |
| Vacancies.VacancyManager.UpdateStatus | vacancy_management.py:110-131 | Succeeds iff the status is one of Open, On Hold, Closed or Filled and the vacancy exists. Sets the status, and the filled date only for Filled. Otherwise changes nothing. |
| Vacancies.VacancyManager.UpdateRequirements | vacancy_management.py:133-145 | Succeeds iff the vacancy exists, and then merges the given requirement keys. Otherwise changes nothing. |
| Vacancies.MergeIdempotent | vacancy_management.py:140 | Merging the same keys twice equals merging once, and merging nothing changes nothing. |
| Vacancies.MergeLastWins | vacancy_management.py:140 | A later update that supplies every key of an earlier one overrides it. |
| Vacancies.VacancyManager.AddNote | vacancy_management.py:147-159 | Succeeds iff the vacancy exists, and then appends exactly one note. |
| Vacancies.VacancyManager.GetVacancy | vacancy_management.py:161-163 | Present iff the id is stored, with that id. |
| Vacancies.VacancyManager.GetVacancyByRole | vacancy_management.py:165-170 | Absent iff no vacancy has that role name; when present, it has that role name. |
| Vacancies.FirstForSpec | vacancy_management.py:37-39 | The lookup finds nothing iff no vacancy qualifies. Otherwise it returns the first one that qualifies. |
| Vacancies.FirstForAt | vacancy_management.py:37-39 | The first qualifying position determines the lookup. |
| Vacancies.VacancyManager.GetAllVacancies | vacancy_management.py:172-176 | With a status, exactly the vacancies of that status in store order; with none or "", all of them. |
| Vacancies.WithStatusSpec | vacancy_management.py:175 | The status query keeps exactly the vacancies with that status, in order. |
| Vacancies.VacancyManager.GetVacancyStats | vacancy_management.py:178-198 | The total is the number of vacancies. The status and priority counts each sum to the total, each status count is the size of that status query, and the candidate total is the sum of the assignment lists. |
| Vacancies.CountsTotal | vacancy_management.py:188-190 | The status and priority counters sum to the number of vacancies. |
| Vacancies.StatusCountIsFilterLength | vacancy_management.py:189 | The count of a status equals the number of vacancies with it. |
| Vacancies.VacancyManager.GetCandidatesForVacancy | vacancy_management.py:200-214 | An unknown vacancy gives []. Otherwise it gives at most one profile per assigned id, and every assigned id with a stored profile contributes it. |
| Vacancies.LoadAssigned | vacancy_management.py:206-214 | Every assigned id with a stored profile is loaded, and nothing else. |
| Vacancies.MatchScoreBounds | vacancy_management.py:237-259 | The rule-based score lies between 0 and 100: 20 for role, 40 × skill overlap, 20 plus a bonus of at most 10 for experience, 10 for authorisation. |
| Vacancies.MatchPoolSpec | vacancy_management.py:229-263 | The pool holds exactly the unassigned candidates with a positive score, each with its score. |
| Vacancies.MatchedProperties | vacancy_management.py:261-268 | The matches are at most top_n, sorted by score, unassigned, with scores in (0, 100]. |
| Vacancies.VacancyManager.MatchCandidates | vacancy_management.py:216-268 | An unknown vacancy gives []. Otherwise the top_n best-scored unassigned candidates, sorted, each scoring in (0, 100]. |
| Kpi.KPIDashboard.constructor | kpi_dashboard.py:12-14 | The dashboard starts with empty counters (the JSON load is not modelled). |
| Kpi.KPIDashboard.CalculateMetricsFromProfiles | kpi_dashboard.py:37-84 | Stage counts and conversions are recomputed from scratch. Source counts add to the previous ones. Transitions and rejections are unchanged. |
| Kpi.BumpUploaded | kpi_dashboard.py:47-66 | A pipeline stage raises uploaded by exactly one; any other stage raises no counter; monotonicity is kept. |
| Kpi.FunnelMonotone | kpi_dashboard.py:47-66 | uploaded ≥ reviewed ≥ interviewed ≥ offered ≥ hired. |
| Kpi.FunnelFromStageCounts | kpi_dashboard.py:45-66 | Each funnel counter is the sum of the counts of the stages at or beyond it. |
| Kpi.StageCountsTotal | kpi_dashboard.py:45-46 | The stage counts sum to the number of profiles, with a missing stage counted as Uploaded. |
| Kpi.AddSourcesAccumulates | kpi_dashboard.py:80-81 | Source counts of a new pass add to the counts already there. |
| Kpi.SourcesWellFormed | kpi_dashboard.py:80-81 | The source counter keeps each role once. |
| Kpi.KPIDashboard.GetConversionRate | kpi_dashboard.py:98-104 | 0 with nothing uploaded, else hired / uploaded × 100. This lies in [0, 100] under the funnel invariant. |
| Kpi.RateBound | kpi_dashboard.py:102-103 | The exact rate times uploaded is hired × 100, and at most 100 when hired ≤ uploaded. |
| Kpi.KPIDashboard.GetConversionFunnelData | kpi_dashboard.py:129-140 | Fixed stage names and the five counters in that order. The values are non-increasing under the funnel invariant. |
| Kpi.KPIDashboard.TrackStageTransition | kpi_dashboard.py:166-176 | Appends exactly one transition; everything else is unchanged. |
| Kpi.KPIDashboard.RecordRejection | kpi_dashboard.py:178-182 | Raises only the given reason's count, by one. |
| Resumes.SkillKeywordsDistinct | parse_resumes.py:122-130 | The 61 skill keywords are pairwise different. |
| Resumes.DetectSkillsSpec | parse_resumes.py:131-133 | The names reported are the keywords the text contains, in list order. Confidence is 0.9 iff the keyword occurs between single spaces, else 0.7. |
| Resumes.ExtractSkills | parse_resumes.py:119-134 | The loop reports the keyword skills of the lower-cased text. |
| Resumes.ExtractSkillsSpec | parse_resumes.py:119-134 | A keyword is reported iff the lower-cased text contains it. Results follow list order and have no duplicates. |
| Resumes.JavascriptImpliesJava | parse_resumes.py:123-132 | Finding javascript implies finding java. |
| Resumes.ExtractWorkExperience | parse_resumes.py:136-149 | The largest captured number in [0, 50], or 0 when there is none; so the result lies in [0, 50]. |
| Resumes.CreateResumeSnippet | parse_resumes.py:181-184 | The first three sentences joined with ". ". If longer than 300 characters, exactly its first 300 characters and "..."; otherwise unchanged. |
| Resumes.SnippetOfOneSentence | parse_resumes.py:181-184 | A short text without a period is its own snippet. |
| Resumes.SnippetOfTwoSentences | parse_resumes.py:182-183 | Two short sentences come back joined by ". ". |
| Resumes.SearchableTextSpec | parse_resumes.py:186-198 | The text is the non-empty parts joined by single spaces, then " ", then the first 1000 characters of the full text (all of it when shorter). Every non-empty part occurs before that tail. |
| Resumes.SearchableTextHasSkills | parse_resumes.py:191-196 | Every non-empty skill name occurs in the searchable text. |
| Resumes.EducationTexts | parse_resumes.py:194 | One "degree field" text per education entry. |
| Resumes.NonEmpty | parse_resumes.py:196 | `filter(None, parts)` keeps exactly the non-empty parts. |
| Resumes.Suffix | parse_resumes.py:201 | `Path.suffix`: the name's final ".xyz" with no further dot, never starting at the first character (".pdf" has none), or "" when there is no such dot. |
| Resumes.LastDot | parse_resumes.py:201 | The position of the last dot, or -1. |
| Resumes.ParseResume | parse_resumes.py:200-243 | No profile iff the lower-cased suffix is not .pdf, .docx or .doc, or the text is under 50 characters. Otherwise: the detected skills; experience the largest capture in [0, 50] or 0; titles [role] or []; email, phone and location from the contact; status New; stage Uploaded; the searchable text. |
| App.MaskPii | app.py:175-183 | None, "" or a shown value are returned unchanged, and a present value stays present. |
| App.MaskEmail | app.py:179-181 | An address becomes min(local length, 3) stars, "@", and the text between the first and second "@". |
| App.MaskPhone | app.py:183 | Other values become "+1-***-***-" plus the last four characters, or "***" when shorter than four. |
| App.MaskIdempotent | app.py:175-183 | Masking a masked value again changes nothing. |
| App.ExtractKeyRequirements | app.py:139-173 | Skills are the first ten keywords the lower-cased description contains, in list order. The query is the first five skills joined by spaces, or the first 100 characters when none is found. The minimum experience is the largest first-match number, or 0. |
| App.RequirementSkillsSpec | app.py:152-170 | Every returned skill is a keyword the description contains, and below the cap of ten every such keyword is returned, in list order. Each of the first five occurs in the query. |
| App.BuildFilters | app.py:387-394 | No filters iff the role is All and the range is (0, 30). Otherwise a non-empty dictionary. |
| App.BuildFiltersMeaning | app.py:387-394 | A profile passes iff it has the chosen role (unless All) and, with a non-default range, experience within it. |
| App.RequiredList | app.py:397 | One item per comma-separated piece, stripped of white space at both ends and lower-cased. White space is that of Python's `str.isspace`, including the no-break space and the Unicode spaces. |
| Text.StripNoBreakSpace | app.py:397 | `strip()` removes a leading no-break space. |
| App.KeepWithSkillsSpec | app.py:398-402 | Keeps exactly the results whose joined lower-cased skill names contain every required item, in their order. |
| App.FilterByRequiredSkills | app.py:396-403 | An empty field leaves the results unchanged. Otherwise the loop keeps the results that have all required skills. |
| App.BadgeOfFusedScore | app.py:417-422 | A candidate found by both signals is an Excellent match. A single keyword-only hit is a Good match. No keyword hit is merely Possible. |

## Left out

- File and directory I/O is not modelled: JSON load and save, `scan_and_parse`, `load_profile`, glob over the parsed directory, and logging. The profile store is a map from id to profile, and a file listing is a sequence of profiles.
- FAISS, the vectorizer and SQLite FTS5 are not modelled. Their answers (the FAISS rows, and the FTS5 ids or error) are inputs. Which rows the indexes return is not modelled beyond their count.
- PDF/DOCX/DOC text extraction and the regular-expression extractors (contact, education, work authorisation, availability, experience patterns) are left out. Their results are inputs of `Resumes.ParseResume`, `Resumes.ExtractWorkExperience` and `App.ExtractKeyRequirements`.
- The clock is not modelled. Timestamps, created and updated dates, and the `VAC_`/`CAND_` stamps are string inputs.
- `get_time_to_present`, `get_time_to_hire`, `get_pipeline_velocity`, `get_hiring_trends` and the time lists of `calculate_metrics_from_profiles` are left out. They depend on the clock.
- `round(..., 1)` and floating-point arithmetic are left out.
- Kpi.KPIDashboard.GetConversionRate: returns the exact ratio without rounding to one decimal, because rounding is floating point.
- Vacancies.VacancyManager.GetVacancyStats: the average is the exact ratio without rounding, for the same reason.
- Text.Lower: lower-cases ASCII letters only, because Python's Unicode case mapping is not modelled.
- `get_dashboard_summary`, `get_stage_distribution`, `get_source_effectiveness`, `get_rejection_breakdown`, `get_stage_duration_analysis`, `get_candidate_pool_size` and `get_active_vacancies` are left out. They copy stored counters or read files, with no logic to prove.
- Vacancies.VacancyManager.AutoCreateVacancies: takes the role set as a sequence, because Python's set iteration order is unspecified. It counts every role, including those whose existing Open vacancy was reused, as the code does.
- In place, `search` and `match_candidates_to_vacancy` write `search_score` or `match_score` into the profile dictionaries. The model returns scored copies instead. Each loaded profile is a fresh dictionary, so no aliasing is lost.
- Retrieval.SemanticSearch: drops a FAISS row at position -1, where the code as written reads the last candidate id (see Findings). Retrieval.Search inherits this.
- Retrieval.Search: uses the corrected semantic hydration, so its result is that of the corrected program (see Findings).
- Vacancies.VacancyManager.UpdateRequirements: the update has the six requirement keys of a new vacancy. Python's `dict.update` also accepts other keys. Nothing in the tool reads such keys.
- Vacancies.VacancyManager.AutoCreateVacancies: promises an Open vacancy for every role only when the new ids are fresh and pairwise different. Two roles such as "Data Engineer" and "Data_Engineer" created in the same second share an id, and the second record overwrites the first (`Vacancies.VacancyIdIgnoresSpaces`).
- Absent keys and `None` values of the profile dictionaries are not distinguished. A crash on a `None` value where the code calls a method on it is not modelled.
- The Streamlit interface, the password check, the Ollama chat and the session state are left out. So are `build_faiss.py`, `build_fts.py` and `debug_folders.py`.

## Findings

| source | as written | input that shows it | evidently intended | confidence | as-written member | corrected member |
|---|---|---|---|---|---|---|
| retrieval.py:48-50 | The guard `idx < len(self.candidate_ids)` admits the position -1, which FAISS returns for an unfilled slot. Python then reads `candidate_ids[-1]`, the last id. | An index holding fewer vectors than `meta.json` lists ids, for example one vector and ids ["a", "b"]: the rows `[(0.9, 0), (-1.0, -1)]` yield two hits, the second for "b". | `0 <= idx < len(self.candidate_ids)`: only filled rows become hits. | low, not executed: it needs an index and id list out of step | Retrieval.HydrateRowsAsWritten, Retrieval.PaddingRowReadsLastId | Retrieval.HydrateRows, Retrieval.HydrateRowsFromFilledRows |
