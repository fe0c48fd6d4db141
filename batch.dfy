/**
 * Batch mode (`run_batch_interviews`): one interview per feature, with the
 * same roster and follow-up budget, and a summary table of the decisions.
 */
module Batch {
  import opened Text
  import opened Personas
  import opened Interview

  /** A feature to evaluate: its topic and its core questions. */
  datatype Feature = Feature(topic: string, coreQuestions: seq<string>)

  /** The interview a feature gets. */
  function FeaturePanel(f: Feature, roster: seq<Persona>, maxFollowups: int): Panel {
    Panel(f.topic, roster, f.coreQuestions, maxFollowups)
  }

  /**
   * The features are interviewed one after the other, and each result is that
   * of an interview of its own feature alone, in feature order.
   */
  method RunBatchInterviews(features: seq<Feature>, roster: seq<Persona>, maxFollowups: int, b: Backend)
    returns (results: seq<InterviewResult>)
    ensures |results| == |features|
    ensures forall i :: 0 <= i < |features| ==> results[i] == Outcome(FeaturePanel(features[i], roster, maxFollowups), b)
  {
    ghost var outcome := (f: Feature) => Outcome(FeaturePanel(f, roster, maxFollowups), b);
    results := [];
    for i := 0 to |features|
      invariant results == MapSeq(features[..i], outcome)
    {
      var result, _ := RunInterview(FeaturePanel(features[i], roster, maxFollowups), b);
      MapSeqStep(features, i, outcome);
      results := results + [result];
    }
    MapSeqWhole(features, outcome);
  }

  /** Extending the prefix by one element maps one more element. */
  lemma MapSeqStep<A, B>(xs: seq<A>, i: nat, f: A -> B)
    requires i < |xs|
    ensures MapSeq(xs[..i + 1], f) == MapSeq(xs[..i], f) + [f(xs[i])]
  {
    assert xs[..i + 1][..i] == xs[..i];
  }

  /** The whole prefix is the sequence itself. */
  lemma MapSeqWhole<A, B>(xs: seq<A>, f: A -> B)
    ensures MapSeq(xs[..|xs|], f) == MapSeq(xs, f)
  {
    assert xs[..|xs|] == xs;
  }

  /** `f` applied to each element, in order. */
  function MapSeq<A, B>(xs: seq<A>, f: A -> B): (ys: seq<B>)
    ensures |ys| == |xs|
    ensures forall i :: 0 <= i < |xs| ==> ys[i] == f(xs[i])
  {
    if xs == [] then [] else MapSeq(xs[..|xs| - 1], f) + [f(xs[|xs| - 1])]
  }

  /** `rationale[:2]`: the first two rationale points, or all of them when there are fewer. */
  function TopRationale(report: SummaryReport): (top: seq<string>)
    ensures |top| == (if |report.rationale| < 2 then |report.rationale| else 2)
    ensures forall i :: 0 <= i < |top| ==> top[i] == report.rationale[i]
  {
    if |report.rationale| <= 2 then report.rationale else report.rationale[..2]
  }

  /** One bullet line per point. */
  function Bullets(points: seq<string>): (lines: seq<string>)
    ensures |lines| == |points|
    ensures forall i :: 0 <= i < |points| ==> lines[i] == "\U{2022} " + points[i]
  {
    if points == [] then [] else Bullets(points[..|points| - 1]) + ["\U{2022} " + points[|points| - 1]]
  }

  /** The "Key Points" cell. */
  function KeyPoints(report: SummaryReport): string {
    Join("\n", Bullets(TopRationale(report)))
  }

  /** The key points are blank exactly when the report gives no rationale. */
  lemma KeyPointsEmptyIff(report: SummaryReport)
    ensures KeyPoints(report) == "" <==> report.rationale == []
  {
    var lines := Bullets(TopRationale(report));
    assert forall i :: 0 <= i < |lines| ==> lines[i][0] == '\U{2022}';
    JoinEmptyIff("\n", lines);
  }

  /** A row of the batch summary table, without the transcript file column. */
  datatype SummaryRow = SummaryRow(feature: string, decision: string, approved: bool, keyPoints: string)

  /** The row of one result: the decision is shown as approved exactly when it reads "GO". */
  function RowOf(result: InterviewResult): SummaryRow {
    SummaryRow(result.topic, result.report.goOrNoGo, result.report.goOrNoGo == "GO", KeyPoints(result.report))
  }

  /** The summary table: one row per result, in order. */
  method SummaryTable(results: seq<InterviewResult>) returns (rows: seq<SummaryRow>)
    ensures |rows| == |results|
    ensures forall i :: 0 <= i < |results| ==> rows[i] == RowOf(results[i])
  {
    rows := [];
    for i := 0 to |results|
      invariant |rows| == i
      invariant forall k :: 0 <= k < i ==> rows[k] == RowOf(results[k])
    {
      rows := rows + [RowOf(results[i])];
    }
  }
}
