/**
 * The two pages together: what the result page shows after the intake page
 * has submitted in the same tab.
 */
module Handoff {
  import opened Wrappers
  import opened JsValues
  import opened Session
  import opened Intake
  import opened RiskResult

  /**
   * Submitting on the intake page and then mounting the result page in the
   * same tab. A submit with a JSON reply stores the record and the reply, so
   * the result page shows that record, and the reply's analysis when it has a
   * string label. A submit that throws leaves the tab as it was: the result
   * page then shows whatever an earlier submit stored there, and sends the
   * user back to the intake page when nothing was stored.
   */
  method SubmitThenShow(intake: AssessmentPage, tab: BrowserTab, reply: PredictReply, js: Numerics)
    returns (result: ResultPage)
    modifies tab
    ensures fresh(result)
    ensures reply.PredictJson? ==>
      && result.data == Some(intake.formData)
      && tab.path == ResultPath
      && (reply.body.prediction.Some? ==> result.analysis == Some(Interpret(reply.body)))
      && (reply.body.prediction.None? ==> result.analysis == None)
    ensures reply.PredictThrew? ==>
      && tab.assessmentData == old(tab.assessmentData)
      && tab.predictionResult == old(tab.predictionResult)
    ensures reply.PredictThrew? && old(tab.assessmentData).Some? && old(tab.predictionResult).Some? ==>
      && result.data == old(tab.assessmentData)
      && tab.path == old(tab.path) && tab.effects == old(tab.effects)
      && var stored := old(tab.predictionResult).value;
        (stored.prediction.Some? ==> result.analysis == Some(Interpret(stored)))
        && (stored.prediction.None? ==> result.analysis == None)
    ensures reply.PredictThrew? && (old(tab.assessmentData).None? || old(tab.predictionResult).None?) ==>
      && result.data == None && result.analysis == None
      && tab.path == AssessmentPath
      && tab.effects == old(tab.effects) + [Navigated(AssessmentPath)]
  {
    var _ := intake.HandleSubmit(tab, reply, js);
    result := new ResultPage();
    result.Load(tab);
  }
}
