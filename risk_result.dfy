/**
 * The result page: the session gate that sends the user back to the intake
 * page when either hand-off entry is missing, the reading of the
 * classifier's reply as a risk tier with its confidence, factors and
 * recommendations, and the display choices made from that analysis (tier
 * style, urgent highlighting, progress-bar width).
 */
module RiskResult {
  import opened Wrappers
  import opened Strings
  import opened JsValues
  import opened Session

  datatype RiskLevel = Low | Medium | High

  /** The page's reading of the classifier's label: case-insensitive, and every other label is low. */
  function LevelOf(text: string): (level: RiskLevel)
    ensures level == High <==> Lower(text) == "high"
    ensures level == Medium <==> Lower(text) == "medium"
    ensures level == Low <==> Lower(text) != "high" && Lower(text) != "medium"
  {
    var l := Lower(text);
    if l == "high" then High
    else if l == "medium" then Medium
    else Low
  }

  /** The tier depends on the label's letters only, not on their case. */
  lemma LevelIgnoresCase(text: string)
    ensures LevelOf(Lower(text)) == LevelOf(text)
  {
    LowerIdempotent(text);
  }

  /** The confidence shown: the stored score, or 0 when the reply has none (`?? 0`). */
  function ConfidenceOf(reply: Prediction): (c: real)
    ensures reply.confidenceScore.Some? ==> c == reply.confidenceScore.value
    ensures reply.confidenceScore.None? ==> c == 0.0
  {
    reply.confidenceScore.GetOr(0.0)
  }

  const ModelFactor := "Model-based risk estimation using vitals and history."

  /** The contributing factors listed whatever the reply. */
  const Factors: seq<string> := [ModelFactor]

  // Each recommendation is written as a concatenation of short literals; the
  // value is the plain sentence, and the pieces let the verifier inspect it.
  const UrgentList: seq<string> := [
    "URGENT: " + "Consult a specialist " + "or higher-level facility.",
    "Ensure close monitoring " + "and follow-up.",
    "Prepare an emergency " + "transport plan " + "if required."
  ]

  const RoutineList: seq<string> := [
    "Continue regular " + "antenatal check-ups.",
    "Maintain healthy diet " + "and moderate exercise.",
    "Monitor blood pressure " + "and blood sugar " + "regularly."
  ]

  /** The follow-up advice: the urgent list for a high tier, the routine list for every other tier. */
  function Recommendations(level: RiskLevel): (r: seq<string>)
    ensures |r| == 3
    ensures r == UrgentList <==> level == High
    ensures r == RoutineList <==> level != High
  {
    ListsDiffer();
    if level == High then UrgentList else RoutineList
  }

  lemma ListsDiffer()
    ensures UrgentList != RoutineList
  {
    assert UrgentList[0][0] == 'U' && RoutineList[0][0] == 'C';
  }

  /** `rec.includes('URGENT')`: the test that gives a recommendation the urgent styling. */
  function IsUrgent(rec: string): (b: bool)
    ensures b ==> 'U' in rec && |rec| >= 6
  {
    ContainedFirstChar(rec, "URGENT");
    Contains(rec, "URGENT")
  }

  /** The first high-tier recommendation opens with "URGENT". */
  lemma UrgentOpening()
    ensures IsUrgent(UrgentList[0])
  {
    var rec := UrgentList[0];
    assert rec[..6] == "URGENT";
    assert StartsAt(rec, 0, "URGENT");
  }

  lemma LaterUrgentAdviceNotUrgent(k: nat)
    requires 1 <= k < 3
    ensures !IsUrgent(UrgentList[k])
  {
    if k == 1 {
      assert 'U' !in UrgentList[1];
    } else {
      assert 'U' !in UrgentList[2];
    }
  }

  lemma RoutineAdviceNotUrgent(k: nat)
    requires k < 3
    ensures !IsUrgent(RoutineList[k])
  {
    if k == 0 {
      assert 'U' !in RoutineList[0];
    } else if k == 1 {
      assert 'U' !in RoutineList[1];
    } else {
      assert 'U' !in RoutineList[2];
    }
  }

  /** Only the first item of the high-tier list is styled urgent; no other item of either list is. */
  lemma UrgentOnlyFirstOfHigh(level: RiskLevel, i: nat)
    requires i < 3
    ensures IsUrgent(Recommendations(level)[i]) <==> level == High && i == 0
  {
    if level != High {
      RoutineAdviceNotUrgent(i);
    } else if i == 0 {
      UrgentOpening();
    } else {
      LaterUrgentAdviceNotUrgent(i);
    }
  }

  /** The analysis the page builds from the reply (`RiskAnalysis`). */
  datatype RiskAnalysis = RiskAnalysis(
    riskLevel: RiskLevel,
    confidence: real,
    factors: seq<string>,
    recommendations: seq<string>)

  /**
   * The analysis of a reply whose label is a string (`toLowerCase` throws on
   * any other label).
   */
  function Interpret(reply: Prediction): (a: RiskAnalysis)
    requires reply.prediction.Some?
    ensures a.riskLevel == LevelOf(reply.prediction.value)
    ensures a.confidence == ConfidenceOf(reply)
    ensures a.factors == Factors
    ensures |a.recommendations| == 3
    ensures a.recommendations == UrgentList <==> Lower(reply.prediction.value) == "high"
  {
    var level := LevelOf(reply.prediction.value);
    RiskAnalysis(level, ConfidenceOf(reply), Factors, Recommendations(level))
  }

  /**
   * Replies read as expected: "High" with 0.83 gives the high tier, that
   * confidence and the urgent list; "Medium" gives the routine list; an
   * unknown label gives the low tier; a missing score reads as 0.
   */
  lemma InterpretExamples()
    ensures Interpret(Prediction(Some("High"), Some(0.83))) == RiskAnalysis(High, 0.83, Factors, UrgentList)
    ensures Interpret(Prediction(Some("Medium"), Some(0.5))).riskLevel == Medium
    ensures Interpret(Prediction(Some("Medium"), Some(0.5))).recommendations == RoutineList
    ensures Interpret(Prediction(Some("unknown-label"), Some(0.9))).riskLevel == Low
    ensures Interpret(Prediction(Some("low"), None)).confidence == 0.0
  {
    assert Lower("High") == "high" by {
      assert LowerChar('H') == 'h';
    }
    assert Lower("Medium") == "medium" by {
      assert LowerChar('M') == 'm';
    }
  }

  datatype Icon = CheckCircle | AlertTriangle | AlertCircle

  /** One entry of `riskConfig`: the colours, icon and heading of a tier. */
  datatype TierStyle = TierStyle(
    color: string,
    bgColor: string,
    borderColor: string,
    textColor: string,
    icon: Icon,
    heading: string)

  /** `riskConfig[level]` */
  function Config(level: RiskLevel): (s: TierStyle)
    ensures level == Low ==> s.heading == "Low Risk" && s.icon == CheckCircle
    ensures level == Medium ==> s.heading == "Medium Risk" && s.icon == AlertTriangle
    ensures level == High ==> s.heading == "High Risk" && s.icon == AlertCircle
  {
    match level
    case Low => TierStyle("#16A34A", "bg-green-50", "border-green-200", "text-green-900", CheckCircle, "Low Risk")
    case Medium => TierStyle("#F59E0B", "bg-amber-50", "border-amber-200", "text-amber-900", AlertTriangle, "Medium Risk")
    case High => TierStyle("#DC2626", "bg-red-50", "border-red-200", "text-red-900", AlertCircle, "High Risk")
  }

  /** Distinct tiers are shown with distinct headings and distinct colours. */
  lemma ConfigDistinguishesTiers(x: RiskLevel, y: RiskLevel)
    ensures Config(x).heading == Config(y).heading <==> x == y
    ensures Config(x).color == Config(y).color <==> x == y
  {
    if x != y {
      assert Config(x).heading[0] != Config(y).heading[0];
      assert Config(x).color[1] != Config(y).color[1];
    }
  }

  /** Width of the progress bar in percent: `Math.min(confidence * 100, 100)`. */
  function ProgressWidth(confidence: real): (w: real)
    ensures w <= 100.0
    ensures w == confidence * 100.0 || w == 100.0
    ensures confidence * 100.0 <= 100.0 ==> w == confidence * 100.0
  {
    if confidence * 100.0 < 100.0 then confidence * 100.0 else 100.0
  }

  /** A confidence between 0 and 1 fills the bar in proportion; anything above 1 fills it exactly. */
  lemma ProgressOfProbability(confidence: real)
    ensures 0.0 <= confidence <= 1.0 ==> 0.0 <= ProgressWidth(confidence) == confidence * 100.0
    ensures confidence >= 1.0 ==> ProgressWidth(confidence) == 100.0
  {
  }

  /** What the page renders: the loading text, or the report for an analysis. */
  datatype Screen =
    | Loading
    | Report(style: TierStyle, barWidth: real, factors: seq<string>, advice: seq<string>, urgent: seq<bool>)

  /** The render of the page (lines 93-95 and the report below them). */
  function Render(data: Option<Record>, analysis: Option<RiskAnalysis>): (s: Screen)
    ensures s.Loading? <==> data.None? || analysis.None?
    ensures s.Report? ==>
      && s.style == Config(analysis.value.riskLevel)
      && s.barWidth == ProgressWidth(analysis.value.confidence)
      && s.factors == analysis.value.factors
      && s.advice == analysis.value.recommendations
      && |s.urgent| == |s.advice|
      && forall i :: 0 <= i < |s.urgent| ==> (s.urgent[i] <==> IsUrgent(s.advice[i]))
  {
    if data.None? || analysis.None? then Loading
    else
      var a := analysis.value;
      var urgent := seq(|a.recommendations|, i requires 0 <= i < |a.recommendations| => IsUrgent(a.recommendations[i]));
      Report(Config(a.riskLevel), ProgressWidth(a.confidence), a.factors, a.recommendations, urgent)
  }

  /**
   * The report for a stored reply: its heading is the tier's, and exactly the
   * first line of advice is highlighted, and only for a high tier.
   */
  lemma ReportOfReply(data: Record, reply: Prediction)
    requires reply.prediction.Some?
    ensures var s := Render(Some(data), Some(Interpret(reply)));
      && s.Report?
      && s.style.heading == Config(LevelOf(reply.prediction.value)).heading
      && s.factors == [ModelFactor]
      && |s.urgent| == 3
      && (s.urgent[0] <==> Lower(reply.prediction.value) == "high")
      && !s.urgent[1] && !s.urgent[2]
  {
    var level := LevelOf(reply.prediction.value);
    UrgentOnlyFirstOfHigh(level, 0);
    UrgentOnlyFirstOfHigh(level, 1);
    UrgentOnlyFirstOfHigh(level, 2);
  }

  const AssessmentPath := "/assessment"

  /** The result page's state: the record and the analysis it shows (`data`, `analysis`). */
  class ResultPage {
    var data: Option<Record>
    var analysis: Option<RiskAnalysis>

    /** The page as mounted, before its effect runs. */
    constructor ()
      ensures data == None && analysis == None
    {
      data := None;
      analysis := None;
    }

    /**
     * The mount effect. With either session entry missing: redirect to the
     * intake page and set nothing. Otherwise: set the record, then the
     * analysis of the reply; a reply without a string label stops the effect
     * at `toLowerCase` after the record is set, so no analysis is produced.
     */
    method Load(tab: BrowserTab)
      modifies this, tab
      ensures tab.assessmentData == old(tab.assessmentData)
      ensures tab.predictionResult == old(tab.predictionResult)
      ensures old(tab.assessmentData).None? || old(tab.predictionResult).None? ==>
        && tab.path == AssessmentPath
        && tab.effects == old(tab.effects) + [Navigated(AssessmentPath)]
        && data == old(data) && analysis == old(analysis)
      ensures old(tab.assessmentData).Some? && old(tab.predictionResult).Some? ==>
        && tab.path == old(tab.path) && tab.effects == old(tab.effects)
        && data == old(tab.assessmentData)
        && var reply := old(tab.predictionResult).value;
          (reply.prediction.Some? ==> analysis == Some(Interpret(reply)))
          && (reply.prediction.None? ==> analysis == old(analysis))
    {
      var stored := tab.assessmentData;
      var result := tab.predictionResult;
      if stored.None? || result.None? {
        tab.Navigate(AssessmentPath);
        return;
      }
      data := stored;
      var reply := result.value;
      if reply.prediction.None? {
        return;
      }
      analysis := Some(Interpret(reply));
    }
  }
}
