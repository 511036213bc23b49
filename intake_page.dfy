/**
 * The intake page: the form state it holds, the speech-recognition state
 * machine (toggle, start, error, end and result events) and the submit
 * handler that hands the record and the classifier's reply to the result
 * page through session storage.
 */
module Intake {
  import opened Wrappers
  import opened JsValues
  import opened Session
  import opened IntakeForm
  import Transcript

  /** A call the page makes on a recognition object, or the alert it shows; in order. */
  datatype SpeechCommand = Started(id: nat) | Stopped(id: nat) | Alerted

  /**
   * What the classifier request gave: a thrown request or unreadable body,
   * or a JSON body (stored whatever the HTTP status was).
   */
  datatype PredictReply = PredictThrew | PredictJson(body: Prediction)

  const ResultPath := "/result"

  class AssessmentPage {
    /** The form record (`formData`). */
    var formData: Record
    /** Whether the microphone is shown as listening (`isListening`). */
    var isListening: bool
    /** `recognitionRef.current`: the most recently created recognition object, by number. */
    var recognition: Option<nat>
    /** How many recognition objects the page has created. */
    var created: nat
    /** Every start, stop and alert, oldest first. */
    ghost var commands: seq<SpeechCommand>

    /**
     * The reference always holds the latest recognition object, and the page
     * can only be listening once one exists.
     */
    ghost predicate Valid()
      reads this
    {
      && recognition == (if created == 0 then None else Some(created))
      && (isListening ==> recognition.Some?)
    }

    /** The page as first rendered. */
    constructor ()
      ensures Valid()
      ensures formData == InitialForm() && !isListening && recognition == None && created == 0
      ensures commands == []
    {
      formData := InitialForm();
      isListening := false;
      recognition := None;
      created := 0;
      commands := [];
    }

    /** `handleInputChange`: one change event applied to the record. */
    method HandleInputChange(e: InputEvent, js: Numerics)
      requires Valid()
      modifies this
      ensures Valid()
      ensures formData == ApplyEdit(old(formData), e, js)
      ensures isListening == old(isListening) && recognition == old(recognition)
      ensures created == old(created) && commands == old(commands)
    {
      formData := ApplyEdit(formData, e, js);
    }

    /**
     * `toggleSpeechToText`. While listening: stop the current recognition and
     * show not-listening. Otherwise, without recognition support: alert and
     * change nothing else. Otherwise: create a new recognition object, make it
     * the current one and start it; listening begins only when it reports
     * that it has started.
     */
    method ToggleSpeech(supported: bool)
      requires Valid()
      modifies this
      ensures Valid()
      ensures formData == old(formData)
      ensures old(isListening) ==>
        && !isListening && created == old(created) && recognition == old(recognition)
        && commands == old(commands) + [Stopped(old(recognition).value)]
      ensures !old(isListening) && !supported ==>
        && !isListening && created == old(created) && recognition == old(recognition)
        && commands == old(commands) + [Alerted]
      ensures !old(isListening) && supported ==>
        && !isListening && created == old(created) + 1 && recognition == Some(created)
        && commands == old(commands) + [Started(created)]
    {
      if isListening {
        commands := commands + [Stopped(recognition.value)];
        isListening := false;
        return;
      }
      if !supported {
        commands := commands + [Alerted];
        return;
      }
      created := created + 1;
      recognition := Some(created);
      commands := commands + [Started(created)];
    }

    /** `recognition.onstart`: a started recognition object reports that it listens. */
    method OnStart()
      requires Valid() && recognition.Some?
      modifies this
      ensures Valid()
      ensures isListening
      ensures formData == old(formData) && recognition == old(recognition)
      ensures created == old(created) && commands == old(commands)
    {
      isListening := true;
    }

    /** `recognition.onerror` */
    method OnError()
      requires Valid()
      modifies this
      ensures Valid()
      ensures !isListening
      ensures formData == old(formData) && recognition == old(recognition)
      ensures created == old(created) && commands == old(commands)
    {
      isListening := false;
    }

    /** `recognition.onend` */
    method OnEnd()
      requires Valid()
      modifies this
      ensures Valid()
      ensures !isListening
      ensures formData == old(formData) && recognition == old(recognition)
      ensures created == old(created) && commands == old(commands)
    {
      isListening := false;
    }

    /** The reply of the parsing service merged into the record. */
    method MergeReply(reply: ParseReply)
      requires Valid()
      modifies this
      ensures Valid()
      ensures formData == MergeVoice(old(formData), reply)
      ensures isListening == old(isListening) && recognition == old(recognition)
      ensures created == old(created) && commands == old(commands)
    {
      formData := MergeVoice(formData, reply);
    }

    /**
     * `recognition.onresult`: normalises the transcript, returns the text it
     * sends to the parsing service, and merges the service's reply into the
     * record. The listening state is left to the end event.
     */
    method OnResult(transcript: string, reply: ParseReply) returns (sent: string)
      requires Valid()
      modifies this
      ensures Valid()
      ensures sent == Transcript.Normalise(transcript)
      ensures formData == MergeVoice(old(formData), reply)
      ensures isListening == old(isListening) && recognition == old(recognition)
      ensures created == old(created) && commands == old(commands)
    {
      sent := Transcript.Normalise(transcript);
      MergeReply(reply);
    }

    /**
     * `handleSubmit`: builds the feature vector from the record; when the
     * classifier request yields a JSON body, stores the record, then the
     * reply, then moves to the result page; when it throws, touches nothing.
     */
    method HandleSubmit(tab: BrowserTab, reply: PredictReply, js: Numerics) returns (features: seq<JsNumber>)
      modifies tab
      ensures features == Features(formData, js)
      ensures reply.PredictJson? ==>
        && tab.assessmentData == Some(formData)
        && tab.predictionResult == Some(reply.body)
        && tab.path == ResultPath
        && tab.effects == old(tab.effects) + [StoredItem(AssessmentKey), StoredItem(PredictionKey), Navigated(ResultPath)]
      ensures reply.PredictThrew? ==>
        && tab.assessmentData == old(tab.assessmentData)
        && tab.predictionResult == old(tab.predictionResult)
        && tab.path == old(tab.path) && tab.effects == old(tab.effects)
    {
      features := Features(formData, js);
      match reply
      case PredictThrew =>
      case PredictJson(body) =>
        tab.StoreAssessment(formData);
        tab.StorePrediction(body);
        tab.Navigate(ResultPath);
    }
  }
}
