/**
 * `KPIDashboard` (kpi_dashboard.py): hiring-pipeline counters folded from
 * the parsed profiles, plus the stage-transition log and the rejection
 * counter. The metrics JSON file and the clock-based averages are not
 * modelled; the fields are the state.
 */
module Kpi {
  import opened Wrappers
  import opened Counters
  import opened Profiles

  /** The cumulative funnel: a profile at a later stage also counts for every earlier one. */
  datatype Conversions = Conversions(uploaded: nat, reviewed: nat, interviewed: nat, offered: nat, hired: nat)

  const NoConversions := Conversions(0, 0, 0, 0, 0)

  /** The funnel never widens from one stage to the next. */
  predicate Monotone(c: Conversions) {
    c.uploaded >= c.reviewed >= c.interviewed >= c.offered >= c.hired
  }

  datatype Transition = Transition(candidateId: string, fromStage: string, toStage: string, timestamp: string)

  /** `profile.get('stage', 'Uploaded')` */
  function StageOf(p: Profile): string {
    p.stage.GetOr("Uploaded")
  }

  /** `profile.get('role_category', 'Unknown')` */
  function SourceOf(p: Profile): string {
    p.roleCategory.GetOr("Unknown")
  }

  /** The conversion counters one profile at `stage` increments. */
  function Bump(c: Conversions, stage: string): Conversions {
    if stage == "Uploaded" then c.(uploaded := c.uploaded + 1)
    else if stage == "Screening" || stage == "Reviewed" then c.(uploaded := c.uploaded + 1, reviewed := c.reviewed + 1)
    else if stage == "Interview" then
      c.(uploaded := c.uploaded + 1, reviewed := c.reviewed + 1, interviewed := c.interviewed + 1)
    else if stage == "Offer" then
      c.(uploaded := c.uploaded + 1, reviewed := c.reviewed + 1, interviewed := c.interviewed + 1, offered := c.offered + 1)
    else if stage == "Hired" then
      c.(uploaded := c.uploaded + 1, reviewed := c.reviewed + 1, interviewed := c.interviewed + 1, offered := c.offered + 1,
         hired := c.hired + 1)
    else c
  }

  /** The stages that move the funnel. */
  predicate InPipeline(stage: string) {
    stage in ["Uploaded", "Screening", "Reviewed", "Interview", "Offer", "Hired"]
  }

  /** One profile in the pipeline adds exactly one upload; any other stage (such as New) moves no counter. */
  lemma BumpUploaded(c: Conversions, stage: string)
    ensures InPipeline(stage) ==> Bump(c, stage).uploaded == c.uploaded + 1
    ensures !InPipeline(stage) ==> Bump(c, stage) == c
    ensures Monotone(c) ==> Monotone(Bump(c, stage))
  {
  }

  /** The conversions after folding the profiles in order. */
  function Funnel(ps: seq<Profile>): Conversions
    decreases |ps|
  {
    if ps == [] then NoConversions else Bump(Funnel(ps[..|ps| - 1]), StageOf(ps[|ps| - 1]))
  }

  /** `candidates_by_stage` after folding the profiles in order. */
  function StageCounts(ps: seq<Profile>): Counter
    decreases |ps|
  {
    if ps == [] then [] else Inc(StageCounts(ps[..|ps| - 1]), StageOf(ps[|ps| - 1]))
  }

  /** `candidates_by_source` after folding the profiles in order onto its earlier value. */
  function AddSources(c: Counter, ps: seq<Profile>): Counter
    decreases |ps|
  {
    if ps == [] then c else Inc(AddSources(c, ps[..|ps| - 1]), SourceOf(ps[|ps| - 1]))
  }

  /** uploaded >= reviewed >= interviewed >= offered >= hired, whatever the profiles. */
  lemma {:induction false} FunnelMonotone(ps: seq<Profile>)
    ensures Monotone(Funnel(ps))
    decreases |ps|
  {
    if ps != [] {
      FunnelMonotone(ps[..|ps| - 1]);
      BumpUploaded(Funnel(ps[..|ps| - 1]), StageOf(ps[|ps| - 1]));
    }
  }

  /** Each funnel counter is the number of profiles whose stage is that stage or a later one. */
  lemma {:induction false} FunnelFromStageCounts(ps: seq<Profile>)
    ensures var s := StageCounts(ps);
      && Funnel(ps).hired == Get(s, "Hired")
      && Funnel(ps).offered == Get(s, "Offer") + Get(s, "Hired")
      && Funnel(ps).interviewed == Get(s, "Interview") + Get(s, "Offer") + Get(s, "Hired")
      && Funnel(ps).reviewed == Get(s, "Screening") + Get(s, "Reviewed") + Get(s, "Interview") + Get(s, "Offer") + Get(s, "Hired")
      && Funnel(ps).uploaded == Get(s, "Uploaded") + Get(s, "Screening") + Get(s, "Reviewed") + Get(s, "Interview")
        + Get(s, "Offer") + Get(s, "Hired")
    decreases |ps|
  {
    if ps != [] {
      var init := ps[..|ps| - 1];
      var st := StageOf(ps[|ps| - 1]);
      FunnelFromStageCounts(init);
      var s := StageCounts(init);
      assert StageCounts(ps) == Inc(s, st) && Funnel(ps) == Bump(Funnel(init), st);
      IncGet(s, st, "Hired");
      IncGet(s, st, "Offer");
      IncGet(s, st, "Interview");
      IncGet(s, st, "Reviewed");
      IncGet(s, st, "Screening");
      IncGet(s, st, "Uploaded");
    }
  }

  /** Every profile is counted under exactly one stage, each stage listed once. */
  lemma {:induction false} StageCountsTotal(ps: seq<Profile>)
    ensures Total(StageCounts(ps)) == |ps|
    ensures WellFormed(StageCounts(ps))
    decreases |ps|
  {
    if ps != [] {
      StageCountsTotal(ps[..|ps| - 1]);
      IncTotal(StageCounts(ps[..|ps| - 1]), StageOf(ps[|ps| - 1]));
      IncWellFormed(StageCounts(ps[..|ps| - 1]), StageOf(ps[|ps| - 1]));
    }
  }

  /** The source counter is never reset: each fold adds its own counts to whatever was there. */
  lemma {:induction false} AddSourcesAccumulates(c: Counter, ps: seq<Profile>, k: string)
    ensures Get(AddSources(c, ps), k) == Get(c, k) + Get(AddSources([], ps), k)
    decreases |ps|
  {
    if ps != [] {
      var init := ps[..|ps| - 1];
      var src := SourceOf(ps[|ps| - 1]);
      AddSourcesAccumulates(c, init, k);
      IncGet(AddSources(c, init), src, k);
      IncGet(AddSources([], init), src, k);
    }
  }

  /** The three folds over one more profile. */
  lemma FoldStep(c: Counter, ps: seq<Profile>, i: nat)
    requires i < |ps|
    ensures Funnel(ps[..i + 1]) == Bump(Funnel(ps[..i]), StageOf(ps[i]))
    ensures StageCounts(ps[..i + 1]) == Inc(StageCounts(ps[..i]), StageOf(ps[i]))
    ensures AddSources(c, ps[..i + 1]) == Inc(AddSources(c, ps[..i]), SourceOf(ps[i]))
  {
    assert ps[..i + 1][..i] == ps[..i];
  }

  /** The `if`/`elif` ladder of the metrics loop for one profile. */
  method CountStage(conv0: Conversions, stage: string) returns (conv: Conversions)
    ensures conv == Bump(conv0, stage)
  {
    conv := conv0;
    if stage == "Uploaded" {
      conv := conv.(uploaded := conv.uploaded + 1);
    } else if stage == "Screening" || stage == "Reviewed" {
      conv := conv.(reviewed := conv.reviewed + 1, uploaded := conv.uploaded + 1);
    } else if stage == "Interview" {
      conv := conv.(interviewed := conv.interviewed + 1, reviewed := conv.reviewed + 1, uploaded := conv.uploaded + 1);
    } else if stage == "Offer" {
      conv := conv.(offered := conv.offered + 1, interviewed := conv.interviewed + 1, reviewed := conv.reviewed + 1,
        uploaded := conv.uploaded + 1);
    } else if stage == "Hired" {
      conv := conv.(hired := conv.hired + 1, offered := conv.offered + 1, interviewed := conv.interviewed + 1,
        reviewed := conv.reviewed + 1, uploaded := conv.uploaded + 1);
    }
  }

  datatype FunnelData = FunnelData(stages: seq<string>, values: seq<nat>)

  class KPIDashboard {
    var byStage: Counter
    var transitions: seq<Transition>
    var conversions: Conversions
    var rejections: Counter
    var bySource: Counter

    /** The counters are well formed and the funnel is monotone. */
    ghost predicate Valid()
      reads this
    {
      WellFormed(byStage) && WellFormed(rejections) && WellFormed(bySource) && Monotone(conversions)
    }

    /** The metrics a dashboard starts from when no metrics file exists. */
    constructor ()
      ensures Valid()
      ensures byStage == [] && transitions == [] && conversions == NoConversions && rejections == [] && bySource == []
    {
      byStage := [];
      transitions := [];
      conversions := NoConversions;
      rejections := [];
      bySource := [];
    }

    /** `calculate_metrics_from_profiles` (counters only), with the parsed profiles given in file order. */
    method CalculateMetricsFromProfiles(ps: seq<Profile>)
      requires Valid()
      modifies this
      ensures Valid()
      ensures byStage == StageCounts(ps) && conversions == Funnel(ps)
      ensures bySource == AddSources(old(bySource), ps)
      ensures transitions == old(transitions) && rejections == old(rejections)
    {
      ghost var source0 := bySource;
      var stages: Counter := [];
      var conv := NoConversions;
      var sources := bySource;
      for i := 0 to |ps|
        invariant stages == StageCounts(ps[..i]) && conv == Funnel(ps[..i])
        invariant sources == AddSources(source0, ps[..i])
        invariant unchanged(this)
      {
        FoldStep(source0, ps, i);
        var stage := StageOf(ps[i]);
        stages := Inc(stages, stage);
        conv := CountStage(conv, stage);
        sources := Inc(sources, SourceOf(ps[i]));
      }
      assert ps[..|ps|] == ps;
      FunnelMonotone(ps);
      StageCountsTotal(ps);
      SourcesWellFormed(source0, ps);
      byStage, conversions, bySource := stages, conv, sources;
    }

    /** `get_conversion_rate` before rounding: hired per hundred uploads, 0 with no uploads. */
    function GetConversionRate(): (r: real)
      reads this
      ensures conversions.uploaded == 0 ==> r == 0.0
      ensures conversions.uploaded > 0 ==> r * conversions.uploaded as real == conversions.hired as real * 100.0
      ensures Monotone(conversions) ==> 0.0 <= r <= 100.0
    {
      if conversions.uploaded > 0 then
        var r := (conversions.hired as real / conversions.uploaded as real) * 100.0;
        RateBound(conversions.hired, conversions.uploaded);
        r
      else 0.0
    }

    /** `get_conversion_funnel_data`: the five counters under fixed labels, never increasing along the funnel. */
    function GetConversionFunnelData(): (r: FunnelData)
      reads this
      ensures r.stages == ["Uploaded", "Reviewed", "Interviewed", "Offered", "Hired"]
      ensures |r.values| == 5
      ensures r.values[0] == conversions.uploaded && r.values[4] == conversions.hired
      ensures Monotone(conversions) ==> forall i, j | 0 <= i <= j < 5 :: r.values[i] >= r.values[j]
    {
      FunnelData(
        ["Uploaded", "Reviewed", "Interviewed", "Offered", "Hired"],
        [conversions.uploaded, conversions.reviewed, conversions.interviewed, conversions.offered, conversions.hired])
    }

    /** `track_stage_transition`: append one record, nothing else changes. */
    method TrackStageTransition(candidateId: string, fromStage: string, toStage: string, now: string)
      requires Valid()
      modifies this
      ensures Valid()
      ensures transitions == old(transitions) + [Transition(candidateId, fromStage, toStage, now)]
      ensures byStage == old(byStage) && conversions == old(conversions)
      ensures rejections == old(rejections) && bySource == old(bySource)
    {
      transitions := transitions + [Transition(candidateId, fromStage, toStage, now)];
    }

    /** `record_rejection`: count one more rejection for `reason`. */
    method RecordRejection(candidateId: string, reason: string)
      requires Valid()
      modifies this
      ensures Valid()
      ensures rejections == Inc(old(rejections), reason)
      ensures forall k :: Get(rejections, k) == Get(old(rejections), k) + (if k == reason then 1 else 0)
      ensures byStage == old(byStage) && conversions == old(conversions)
      ensures transitions == old(transitions) && bySource == old(bySource)
    {
      IncWellFormed(rejections, reason);
      forall k ensures Get(Inc(rejections, reason), k) == Get(rejections, k) + (if k == reason then 1 else 0) {
        IncGet(rejections, reason, k);
      }
      rejections := Inc(rejections, reason);
    }
  }

  lemma RateBound(hired: nat, uploaded: nat)
    requires uploaded > 0
    ensures (hired as real / uploaded as real) * 100.0 * uploaded as real == hired as real * 100.0
    ensures hired <= uploaded ==> 0.0 <= (hired as real / uploaded as real) * 100.0 <= 100.0
  {
    assert (hired as real / uploaded as real) * uploaded as real == hired as real;
  }

  lemma {:induction false} SourcesWellFormed(c: Counter, ps: seq<Profile>)
    requires WellFormed(c)
    ensures WellFormed(AddSources(c, ps))
    decreases |ps|
  {
    if ps != [] {
      SourcesWellFormed(c, ps[..|ps| - 1]);
      IncWellFormed(AddSources(c, ps[..|ps| - 1]), SourceOf(ps[|ps| - 1]));
    }
  }
}
