/**
 * The browser tab the two pages share: its session storage (the hand-off
 * from the intake page to the result page), its current route, and the
 * order in which the pages wrote to it.
 */
module Session {
  import opened Wrappers
  import opened JsValues

  /**
   * The classifier's reply as the result page reads it back: its label
   * (None when the reply has no string label, as in an error body) and its
   * confidence score (None when null or missing).
   */
  datatype Prediction = Prediction(prediction: Option<string>, confidenceScore: Option<real>)

  /** A side effect on the tab, in the order it happened. */
  datatype Effect = StoredItem(key: string) | Navigated(path: string)

  const AssessmentKey := "assessmentData"
  const PredictionKey := "predictionResult"

  class BrowserTab {
    /** Session-storage entry `assessmentData` (None when absent). */
    var assessmentData: Option<Record>
    /** Session-storage entry `predictionResult` (None when absent). */
    var predictionResult: Option<Prediction>
    /** The route currently shown. */
    var path: string
    /** Every write to storage and every navigation, oldest first. */
    ghost var effects: seq<Effect>

    /** A fresh tab: empty session storage, showing `path`. */
    constructor (path: string)
      ensures assessmentData == None && predictionResult == None
      ensures this.path == path && effects == []
    {
      assessmentData := None;
      predictionResult := None;
      this.path := path;
      effects := [];
    }

    /** `sessionStorage.setItem('assessmentData', JSON.stringify(form))` */
    method StoreAssessment(form: Record)
      modifies this
      ensures assessmentData == Some(form)
      ensures predictionResult == old(predictionResult) && path == old(path)
      ensures effects == old(effects) + [StoredItem(AssessmentKey)]
    {
      assessmentData := Some(form);
      effects := effects + [StoredItem(AssessmentKey)];
    }

    /** `sessionStorage.setItem('predictionResult', JSON.stringify(result))` */
    method StorePrediction(result: Prediction)
      modifies this
      ensures predictionResult == Some(result)
      ensures assessmentData == old(assessmentData) && path == old(path)
      ensures effects == old(effects) + [StoredItem(PredictionKey)]
    {
      predictionResult := Some(result);
      effects := effects + [StoredItem(PredictionKey)];
    }

    /** `navigate(to)` */
    method Navigate(to: string)
      modifies this
      ensures path == to
      ensures assessmentData == old(assessmentData) && predictionResult == old(predictionResult)
      ensures effects == old(effects) + [Navigated(to)]
    {
      path := to;
      effects := effects + [Navigated(to)];
    }
  }
}
