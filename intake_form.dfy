/**
 * The intake form's record and the pure steps the intake page applies to it:
 * the initial record, one edit with the automatic BMI update, the merge of
 * fields extracted from speech, and the feature vector sent to the
 * classifier.
 */
module IntakeForm {
  import opened Wrappers
  import opened JsValues
  import Autofill

  /** The seventeen fields of the form, in declaration order. */
  const FormKeys: seq<string> := [
    "name", "age", "height", "Bodytemp", "weeksPregnant", "location", "systolicBP", "diastolicBP",
    "bloodSugar", "heartrate", "weight", "bmi", "previousComplications", "preExistingDiabetes",
    "gestationalDiabetes", "mentalHealthConcerns", "shortBirthSpacing"]

  /** The fields edited as checkboxes. */
  const CheckboxKeys: seq<string> := [
    "previousComplications", "preExistingDiabetes", "gestationalDiabetes", "mentalHealthConcerns",
    "shortBirthSpacing"]

  /**
   * The record the page starts from: every text field empty, except the
   * location which defaults to "rural", and every checkbox unticked.
   */
  function InitialForm(): (r: Record)
    ensures forall k :: k in r <==> k in FormKeys
    ensures r["location"] == Str("rural")
    ensures forall k :: k in r && k != "location" ==> !Truthy(r[k])
    ensures forall k :: k in CheckboxKeys ==> r[k] == Bool(false)
    ensures forall k :: k in r && k !in CheckboxKeys && k != "location" ==> r[k] == Str("")
  {
    map k | k in FormKeys :: if k == "location" then Str("rural") else if k in CheckboxKeys then Bool(false) else Str("")
  }

  /** The part of a change event the handler reads: `name`, `type`, `value` and `checked` of its target. */
  datatype InputEvent = InputEvent(name: string, inputType: string, value: string, checked: bool)

  /** The value an input contributes: its checked state for a checkbox, its text otherwise. */
  function EventValue(e: InputEvent): Value {
    if e.inputType == "checkbox" then Bool(e.checked) else Str(e.value)
  }

  /**
   * The BMI update applies: the edited field is height or weight, both are
   * non-empty after the edit, and the height reads as a positive number.
   */
  function RecomputesBmi(name: string, updated: Record, js: Numerics): (b: bool)
    ensures b ==> name != "bmi"
    ensures b ==> ToNumber(Get(updated, "height"), js).Finite? && ToNumber(Get(updated, "height"), js).value > 0.0
    ensures !Truthy(Get(updated, "height")) || !Truthy(Get(updated, "weight")) ==> !b
  {
    && (name == "weight" || name == "height")
    && Truthy(Get(updated, "height")) && Truthy(Get(updated, "weight"))
    && ToNumber(Get(updated, "height"), js).Finite?
    && ToNumber(Get(updated, "height"), js).value > 0.0
  }

  /** `(weight / (height * height)).toFixed(2)`, for a positive height. */
  function BmiText(updated: Record, js: Numerics): string
    requires ToNumber(Get(updated, "height"), js).Finite? && ToNumber(Get(updated, "height"), js).value > 0.0
  {
    var w, h := ToNumber(Get(updated, "weight"), js), ToNumber(Get(updated, "height"), js).value;
    js.toFixed2(DivideBySquare(w, h))
  }

  /**
   * `handleInputChange`: the record after one change event. The edited field
   * takes the event's value; when height or weight changes and both are
   * filled in with a positive height, `bmi` is recomputed; nothing else
   * changes.
   */
  function ApplyEdit(prev: Record, e: InputEvent, js: Numerics): (r: Record)
    ensures Get(r, e.name) == EventValue(e)
    ensures r.Keys == prev.Keys + {e.name} + (if RecomputesBmi(e.name, prev[e.name := EventValue(e)], js) then {"bmi"} else {})
    ensures forall k :: k != e.name && k != "bmi" ==> Get(r, k) == Get(prev, k)
    ensures RecomputesBmi(e.name, prev[e.name := EventValue(e)], js) ==>
      Get(r, "bmi") == Str(BmiText(prev[e.name := EventValue(e)], js))
    ensures !RecomputesBmi(e.name, prev[e.name := EventValue(e)], js) && e.name != "bmi" ==>
      Get(r, "bmi") == Get(prev, "bmi")
  {
    var updated := prev[e.name := EventValue(e)];
    if RecomputesBmi(e.name, updated, js) then updated["bmi" := Str(BmiText(updated, js))] else updated
  }

  /** A sequence of change events, applied in order. */
  function ApplyEdits(prev: Record, es: seq<InputEvent>, js: Numerics): Record
    decreases |es|
  {
    if es == [] then prev else ApplyEdits(ApplyEdit(prev, es[0], js), es[1..], js)
  }

  /** Whether the event edits one of the fields the BMI depends on or the BMI itself. */
  predicate TouchesBmi(e: InputEvent) {
    e.name == "height" || e.name == "weight" || e.name == "bmi"
  }

  /**
   * A BMI the user typed survives every later edit that touches neither
   * height, weight nor the BMI field itself.
   */
  lemma {:induction false} ManualBmiSurvives(prev: Record, es: seq<InputEvent>, js: Numerics)
    requires forall i :: 0 <= i < |es| ==> !TouchesBmi(es[i])
    ensures Get(ApplyEdits(prev, es, js), "bmi") == Get(prev, "bmi")
    decreases |es|
  {
    if es != [] {
      ManualBmiSurvives(ApplyEdit(prev, es[0], js), es[1..], js);
    }
  }

  /** Editing height or weight to a filled-in value, with a positive height, sets the BMI from both. */
  lemma BmiFromHeightAndWeight(prev: Record, e: InputEvent, js: Numerics)
    requires e.name == "height" || e.name == "weight"
    requires Truthy(EventValue(e))
    requires var other := if e.name == "height" then "weight" else "height"; Truthy(Get(prev, other))
    requires var u := prev[e.name := EventValue(e)];
      ToNumber(Get(u, "height"), js).Finite? && ToNumber(Get(u, "height"), js).value > 0.0
    ensures Get(ApplyEdit(prev, e, js), "bmi") == Str(BmiText(prev[e.name := EventValue(e)], js))
  {
    var u := prev[e.name := EventValue(e)];
    assert Get(u, e.name) == EventValue(e);
    assert RecomputesBmi(e.name, u, js);
  }

  /** A height that does not read as a positive number (empty, zero, negative, not a number) leaves the BMI alone. */
  lemma NoBmiWithoutPositiveHeight(prev: Record, e: InputEvent, js: Numerics)
    requires e.name == "height" || e.name == "weight"
    requires var u := prev[e.name := EventValue(e)];
      !(ToNumber(Get(u, "height"), js).Finite? && ToNumber(Get(u, "height"), js).value > 0.0)
    ensures Get(ApplyEdit(prev, e, js), "bmi") == Get(prev, "bmi")
  {
  }

  /** Edits keep the record's keys to the form's fields when every event names one. */
  lemma {:induction false} EditsKeepFormKeys(prev: Record, es: seq<InputEvent>, js: Numerics)
    requires forall k :: k in prev ==> k in FormKeys
    requires forall i :: 0 <= i < |es| ==> es[i].name in FormKeys
    ensures forall k :: k in ApplyEdits(prev, es, js) ==> k in FormKeys
    decreases |es|
  {
    if es != [] {
      var next := ApplyEdit(prev, es[0], js);
      assert "bmi" in FormKeys;
      EditsKeepFormKeys(next, es[1..], js);
    }
  }

  /**
   * What the text-parsing service answered: a thrown request or unreadable
   * body, or a JSON body whose `parsed_fields` member may be missing.
   */
  datatype ParseReply = ParseThrew | ParseJson(parsedFields: Option<Record>)

  /**
   * The speech merge `{...prev, ...data.parsed_fields}`: every parsed key
   * overwrites, every other key is kept, and a failed request or a missing
   * member changes nothing. The BMI is never recomputed here.
   */
  function MergeVoice(prev: Record, reply: ParseReply): (r: Record)
    ensures reply.ParseJson? && reply.parsedFields.Some? ==>
      r.Keys == prev.Keys + reply.parsedFields.value.Keys
      && forall k :: k in reply.parsedFields.value ==> r[k] == reply.parsedFields.value[k]
    ensures forall k :: !(reply.ParseJson? && reply.parsedFields.Some? && k in reply.parsedFields.value) ==>
      Get(r, k) == Get(prev, k)
    ensures !(reply.ParseJson? && reply.parsedFields.Some?) ==> r == prev
  {
    match reply
    case ParseThrew => prev
    case ParseJson(None) => prev
    case ParseJson(Some(fields)) => prev + fields
  }

  /**
   * Merging what the parser extracts from a transcript keeps the record
   * within the form's fields: every key the parser produces is a form field.
   */
  lemma ParsedMergeKeepsFormKeys(prev: Record, text: string)
    requires forall k :: k in prev ==> k in FormKeys
    ensures forall k :: k in MergeVoice(prev, ParseJson(Some(Autofill.Expected(text)))) ==> k in FormKeys
  {
    forall k | k in Autofill.Expected(text)
      ensures k in FormKeys
    {
      Autofill.ExpectedField(text, k);
      Autofill.OutputKeyCases(k);
    }
  }

  /** The order of the classifier's inputs. */
  const FeatureOrder: seq<string> := [
    "age", "systolicBP", "diastolicBP", "bloodSugar", "Bodytemp", "bmi", "previousComplications",
    "preExistingDiabetes", "gestationalDiabetes", "mentalHealthConcerns", "heartrate"]

  /** The inputs sent as `flag ? 1 : 0`; the others are sent as `Number(value)`. */
  predicate IsFlagFeature(key: string) {
    key == "previousComplications" || key == "preExistingDiabetes"
    || key == "gestationalDiabetes" || key == "mentalHealthConcerns"
  }

  function EncodeFeature(key: string, v: Value, js: Numerics): JsNumber {
    if IsFlagFeature(key) then Bit(v) else ToNumber(v, js)
  }

  /** The feature vector built on submit. */
  function Features(form: Record, js: Numerics): (f: seq<JsNumber>)
    ensures |f| == |FeatureOrder| == 11
    ensures forall i :: 0 <= i < 11 ==> f[i] == EncodeFeature(FeatureOrder[i], Get(form, FeatureOrder[i]), js)
    ensures forall i :: 6 <= i < 10 ==> f[i] == Finite(0.0) || f[i] == Finite(1.0)
  {
    [ ToNumber(Get(form, "age"), js),
      ToNumber(Get(form, "systolicBP"), js),
      ToNumber(Get(form, "diastolicBP"), js),
      ToNumber(Get(form, "bloodSugar"), js),
      ToNumber(Get(form, "Bodytemp"), js),
      ToNumber(Get(form, "bmi"), js),
      Bit(Get(form, "previousComplications")),
      Bit(Get(form, "preExistingDiabetes")),
      Bit(Get(form, "gestationalDiabetes")),
      Bit(Get(form, "mentalHealthConcerns")),
      ToNumber(Get(form, "heartrate"), js) ]
  }

  /**
   * The features read only the eleven listed fields: name, height, weight,
   * weeks pregnant, location and short birth spacing never reach the
   * classifier.
   */
  lemma FeaturesReadOnlyListed(a: Record, b: Record, js: Numerics)
    requires forall k :: k in FeatureOrder ==> Get(a, k) == Get(b, k)
    ensures Features(a, js) == Features(b, js)
  {
    forall i | 0 <= i < 11
      ensures Features(a, js)[i] == Features(b, js)[i]
    {
      assert FeatureOrder[i] in FeatureOrder;
    }
  }

  /** A flag merged from speech as the number 1 or 0 is sent exactly as a ticked or unticked checkbox. */
  lemma SpokenFlagsEncodeLikeCheckboxes(form: Record, key: string, js: Numerics, ticked: bool)
    requires IsFlagFeature(key)
    ensures EncodeFeature(key, Num(if ticked then 1 else 0), js) == EncodeFeature(key, Bool(ticked), js)
    ensures EncodeFeature(key, Num(if ticked then 1 else 0), js) == Finite(if ticked then 1.0 else 0.0)
  {
  }

  /** Every field of the untouched form but the location is falsy, present or not. */
  lemma InitialFalsy(k: string)
    requires k != "location"
    ensures !Truthy(Get(InitialForm(), k))
  {
  }

  /** Submitting the untouched form sends every history flag as 0. */
  lemma InitialFlagsAreZero(js: Numerics)
    ensures var v := Features(InitialForm(), js);
      v[6] == v[7] == v[8] == v[9] == Finite(0.0)
  {
    InitialFalsy("previousComplications");
    InitialFalsy("preExistingDiabetes");
    InitialFalsy("gestationalDiabetes");
    InitialFalsy("mentalHealthConcerns");
  }
}
