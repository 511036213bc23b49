# MaternalAI intake, result and chat core in Dafny

This project models the logic behind MaternalAI's maternal-health risk screening. A health worker fills in a 17-field intake form, by typing or by speaking. The page keeps the BMI in step with height and weight and sends an 11-number feature vector to a risk classifier. It then hands the record and the classifier's reply to a result page through the tab's session storage. The result page turns the reply into a low, medium or high tier, with confidence, factors, recommendations and display style. Spoken text reaches the form through a back-end extractor (`parse_data`), which fills form fields from keyword patterns. A separate chat panel keeps an append-only message log for questions sent to a guideline-answering service.

Modules:

- `Wrappers`: `Option` and `GetOr` (JavaScript's `??`).
- `Strings`: literal occurrences, greedy character runs, ASCII lower-casing.
- `JsText`: ECMAScript white space and `trim`.
- `JsValues`: form values, truthiness, and `Number(...)`, `x ? 1 : 0` and `toFixed(2)` kept abstract.
- `Transcript`: normalisation of the speech transcript.
- `Autofill`: `parse_data` from `backend/app/autofill.py`. `ParseData` is the imperative method. It is proved equal to the specification function `Expected`, and every listed property is proved about `Expected`.
- `IntakeForm`: the pure record updates of the intake page and the feature vector.
- `Session`: the browser tab, with session storage, route and the order of writes.
- `Intake`: the intake page as a class, covering edits, the speech state machine, the voice merge and submit.
- `RiskResult`: the result page's interpretation and display choices, and the page's mount effect as a class.
- `RagChat`: the chat panel as a class.
- `Handoff`: submit on the intake page followed by mounting the result page in the same tab.

Behaviour of the source worth noting:

- A non-2xx classifier reply is not rejected. `handleSubmit` stores whatever JSON body it gets, then navigates.
- An edit that does not trigger the BMI rule keeps the previous `bmi`. It is not cleared.
- The voice merge never recomputes the BMI, even when it writes height or weight. `parse_data` never produces those keys anyway.
- Stopping recognition does not discard a result that still arrives. `onresult` has no listening check.

An error body carries no string `prediction`. The result page's effect then throws at `toLowerCase`, after `setData` and before any analysis is set. `RiskResult.ResultPage.Load` stops at that point, with the record set and no analysis. What React shows after the thrown error is not modelled.

## Model

| member | source | states |
|---|---|---|
| Transcript.Normalise | frontend/src/components/RiskAssessment.tsx:100-103 | the transcript sent has no newline, no two adjacent white-space characters, only the plain blank as white space, and no white space at either end |
| Transcript.ReplaceNewlines | frontend/src/components/RiskAssessment.tsx:101 | each newline becomes a blank in place, every other character stays where it was, and no newline remains |
| Transcript.CollapseSpace | frontend/src/components/RiskAssessment.tsx:102 | collapsing runs yields single blanks only; empty exactly when the input is empty; starts with white space exactly when the input does |
| Transcript.CollapseKeepsLastSpace | frontend/src/components/RiskAssessment.tsx:102 | a trailing white-space run is kept as one blank: the collapsed text ends in white space exactly when the input does |
| JsText.Words | frontend/src/components/RiskAssessment.tsx:100-103 | the white-space-separated words of a text, in order: each is non-empty and holds no white space |
| Transcript.CollapseKeepsWords | frontend/src/components/RiskAssessment.tsx:102 | collapsing white-space runs keeps the words and their order |
| Transcript.NormaliseKeepsWords | frontend/src/components/RiskAssessment.tsx:100-103 | normalisation keeps exactly the words of the transcript, in order |
| Transcript.NormaliseIsJoinedWords | frontend/src/components/RiskAssessment.tsx:100-103 | the transcript sent is its words joined by single blanks |
| Transcript.NormalisedIsJoinedWords | frontend/src/components/RiskAssessment.tsx:100-103 | a text with single blanks and no white space at either end is its words joined by single blanks |
| Transcript.NormaliseIdempotent | frontend/src/components/RiskAssessment.tsx:100-103 | normalising twice equals normalising once |
| Transcript.NormaliseOfNormalised | frontend/src/components/RiskAssessment.tsx:100-103 | an already-normalised transcript is left unchanged |
| Transcript.NormaliseKeepsNonSpace | frontend/src/components/RiskAssessment.tsx:100-103 | normalisation changes white space only: the other characters survive, in order |
| JsText.Trim | frontend/src/components/RiskAssessment.tsx:103 | the result is a slice of the input with only white space cut from each end, and has no white space at either end |
| JsText.TrimIdempotent | frontend/src/components/RiskAssessment.tsx:103 | trimming twice equals trimming once |
| JsText.TrimKeepsNonSpace | frontend/src/components/RiskAssessment.tsx:103 | trimming removes white space only |
| JsText.TrimKeepsWords | frontend/src/components/RiskAssessment.tsx:103 | trimming keeps the words and their order |
| JsText.TrimEmptyIffAllSpace | frontend/src/components/RagChat.tsx:30-31 | the trimmed input is empty exactly when the input is all white space |
| Strings.LowerIdempotent | backend/app/autofill.py:6 | lower-casing twice equals lower-casing once |
| JsValues.Bit | frontend/src/components/RiskAssessment.tsx:140-143 | a flag is sent as 1 exactly when truthy and 0 exactly when falsy |
| IntakeForm.InitialForm | frontend/src/components/RiskAssessment.tsx:15-33 | the record has exactly the 17 form keys; location is "rural"; the five history checkboxes are false; every other field is the empty string; every field but location is falsy |
| IntakeForm.ApplyEdit | frontend/src/components/RiskAssessment.tsx:39-64 | the edited key takes the checked state (checkbox) or the text; no other key but `bmi` changes; `bmi` is recomputed from weight and height exactly when height or weight was edited, both are filled in and the height is a positive number; otherwise `bmi` keeps its value; the key set grows only by the edited key and possibly `bmi` |
| IntakeForm.RecomputesBmi | frontend/src/components/RiskAssessment.tsx:49-57 | the BMI is recomputed only on a height or weight edit (never on a typed BMI), never while height or weight is empty, and only for a height that reads as a positive number |
| JsValues.DivideBySquare | frontend/src/components/RiskAssessment.tsx:58 | weight over height squared: not-a-number exactly when the weight is not a number, and otherwise a value that times the squared height gives the weight back |
| IntakeForm.ManualBmiSurvives | frontend/src/components/RiskAssessment.tsx:49-60 | a typed BMI survives any sequence of edits that touch neither height, weight nor `bmi` |
| IntakeForm.BmiFromHeightAndWeight | frontend/src/components/RiskAssessment.tsx:49-59 | editing height or weight to a non-empty value, with the other filled in and a positive height, sets `bmi` to `toFixed(2)` of weight divided by height squared |
| IntakeForm.NoBmiWithoutPositiveHeight | frontend/src/components/RiskAssessment.tsx:54-59 | a height that is not a positive number leaves `bmi` as it was |
| IntakeForm.EditsKeepFormKeys | frontend/src/components/RiskAssessment.tsx:42-46 | edits that name form fields keep the record's keys within the 17 form fields |
| IntakeForm.MergeVoice | frontend/src/components/RiskAssessment.tsx:114-123 | exactly the parsed keys are overwritten with the parsed values, every other key reads as before, and a thrown request or missing `parsed_fields` leaves the record identical |
| IntakeForm.ParsedMergeKeepsFormKeys | frontend/src/components/RiskAssessment.tsx:116-119 | merging what `parse_data` extracts keeps the record within the form's fields |
| IntakeForm.Features | frontend/src/components/RiskAssessment.tsx:133-145 | the vector has 11 entries, in the order age, systolicBP, diastolicBP, bloodSugar, Bodytemp, bmi, the four flags, heartrate; numbers come from `Number(...)` and flags are 0 or 1 |
| IntakeForm.FeaturesReadOnlyListed | frontend/src/components/RiskAssessment.tsx:133-145 | two records that agree on the 11 listed fields give the same vector: name, height, weight, weeksPregnant, location and shortBirthSpacing never reach the classifier |
| IntakeForm.SpokenFlagsEncodeLikeCheckboxes | frontend/src/components/RiskAssessment.tsx:140-143 | a merged flag 1 or 0 is sent exactly as a ticked or unticked checkbox |
| IntakeForm.InitialFlagsAreZero | frontend/src/components/RiskAssessment.tsx:28-31 | submitting the untouched form sends all four history flags as 0 |
| Intake.AssessmentPage.constructor | frontend/src/components/RiskAssessment.tsx:15-35 | the page starts with the initial record, not listening, with no recognition object |
| Intake.AssessmentPage.HandleInputChange | frontend/src/components/RiskAssessment.tsx:39-64 | the record becomes the edited record and the speech state is untouched |
| Intake.AssessmentPage.ToggleSpeech | frontend/src/components/RiskAssessment.tsx:66-127 | while listening: stops the current recognition and shows not-listening; without support: alerts and changes nothing else; otherwise: creates a new recognition, makes it current and starts it, still not listening |
| Intake.AssessmentPage.OnStart | frontend/src/components/RiskAssessment.tsx:86-88 | the start event is the only way listening begins |
| Intake.AssessmentPage.OnError | frontend/src/components/RiskAssessment.tsx:90-93 | an error ends listening and changes nothing else |
| Intake.AssessmentPage.OnEnd | frontend/src/components/RiskAssessment.tsx:95-97 | the end event ends listening and changes nothing else |
| Intake.AssessmentPage.MergeReply | frontend/src/components/RiskAssessment.tsx:114-123 | the parse reply is merged into the record and nothing else changes |
| Intake.AssessmentPage.OnResult | frontend/src/components/RiskAssessment.tsx:99-124 | sends the normalised transcript, merges the reply into the record, and leaves the listening state to the end event |
| Intake.AssessmentPage.HandleSubmit | frontend/src/components/RiskAssessment.tsx:130-165 | builds the feature vector from the record; on a JSON reply, whatever its status, stores the record, then the reply, then navigates to /result, in that order; on a throw, stores nothing and stays |
| Session.BrowserTab.StoreAssessment | frontend/src/components/RiskAssessment.tsx:158 | writes the record entry only and logs the write |
| Session.BrowserTab.StorePrediction | frontend/src/components/RiskAssessment.tsx:159 | writes the reply entry only and logs the write |
| Session.BrowserTab.Navigate | frontend/src/components/RiskAssessment.tsx:160 | changes the route only and logs the navigation |
| Autofill.DigitsAfterSpace | backend/app/autofill.py:9 | `\s*(\d+)` at a position: the group is the maximal digit run after optional white space; no match exactly when no digit follows the white space |
| Autofill.DecimalAfterSpace | backend/app/autofill.py:25 | `\s*(\d+\.?\d*)`: the group follows optional white space, is digits with at most one dot, and is maximal (no digit after it, and no dot after it when it has none); it fails exactly when the digit form fails |
| Autofill.Separator | backend/app/autofill.py:14 | a separator found at a position ends after it, within the text |
| Autofill.SeparatorFound | backend/app/autofill.py:14 | a separator is found exactly when `by`, `over` or `/` starts at the position, and it ends just past that alternative |
| Autofill.Tail | backend/app/autofill.py:9-35 | a pattern's tail captures one numeral, or two for blood pressure, each of the pattern's numeral shape |
| Autofill.DigitsCaptureUnique | backend/app/autofill.py:9 | any capture of `\s*(\d+)` at a position is the one the scan finds: white space, then the whole digit run |
| Autofill.DecimalCaptureUnique | backend/app/autofill.py:25 | any capture of `\s*(\d+\.?\d*)` at a position is the one the scan finds |
| Autofill.TailOfDigitPattern | backend/app/autofill.py:9-35 | for age, blood sugar and heart rate the tail matches exactly when a digit capture exists, and then gives that capture |
| Autofill.TailOfDecimalPattern | backend/app/autofill.py:25-31 | for temperature and BMI the tail matches exactly when a decimal capture exists, and then gives that capture |
| Autofill.TailOfBloodPressure | backend/app/autofill.py:13-16 | the blood-pressure tail matches exactly when a digit capture, white space, a separator and a second digit capture follow one another, and then gives both captures |
| Autofill.AfterKeyword | backend/app/autofill.py:9-35 | a keyword followed by the tail yields only when the keyword starts at the position, and yields the pattern's number of numerals of its shape |
| Autofill.FirstAlternative | backend/app/autofill.py:13-33 | what an alternation of keywords yields is what one of its keywords yields |
| Autofill.FirstAlternativeIsFirst | backend/app/autofill.py:13-33 | the alternation matches exactly when some keyword leads to a match, and then yields what the first such keyword yields |
| Autofill.MatchAt | backend/app/autofill.py:9-35 | a match at a position captures the pattern's number of numerals, each of its shape |
| Autofill.MatchAtFirstKeyword | backend/app/autofill.py:9-35 | a pattern matches at a position exactly when one of its keywords starts there and is followed by the tail, and it captures what follows the first such keyword |
| Autofill.Leftmost | backend/app/autofill.py:9 | the first position in a range where a match exists, with its groups; none exactly when no position in the range matches |
| Autofill.Search | backend/app/autofill.py:9 | `re.search`: the match found is at the leftmost position from the start position on where the pattern matches; none exactly when it matches at no position |
| Autofill.Group | backend/app/autofill.py:10-11 | a stored numeric group is a string of the pattern's numeral shape |
| Autofill.FindFollowedOnLine | backend/app/autofill.py:37 | the scan finds a lead word followed later on the same line by a phrase exactly when such a pair exists (`.` does not cross a newline; lead words match as raw substrings) |
| Autofill.FindMention | backend/app/autofill.py:39 | the scan finds a phrase exactly when one occurs |
| Autofill.Flag | backend/app/autofill.py:37-40 | a flag is 0 exactly when negated, 1 exactly when affirmed and not negated, absent otherwise; only 0 or 1 |
| Autofill.StoreMatch | backend/app/autofill.py:9-11 | stores the leftmost match's group under the key, or nothing |
| Autofill.StoreBloodPressure | backend/app/autofill.py:13-19 | stores both blood-pressure groups or neither |
| Autofill.StoreFlag | backend/app/autofill.py:37-40 | stores 0 when negated, else 1 when affirmed, else nothing |
| Autofill.ParseData | backend/app/autofill.py:5-57 | the dictionary built step by step equals the rule-by-rule specification `Expected` |
| Autofill.ExpectedField | backend/app/autofill.py:7-57 | a key appears exactly when it is one of the 11 output keys and its rule yields a value, and then holds that value |
| Autofill.CaseInsensitive | backend/app/autofill.py:6 | a text and its lower-case form give the same dictionary |
| Autofill.BloodPressurePaired | backend/app/autofill.py:13-19 | systolicBP is present exactly when diastolicBP is |
| Autofill.NumericField | backend/app/autofill.py:9-35 | each numeric key is present exactly when its pattern matches, and holds the leftmost match's group of the pattern's numeral shape |
| Autofill.FlagOutcome | backend/app/autofill.py:37-50 | a phrase flag is 0 exactly when a negation word precedes the phrase on a line, even if it also appears un-negated; 1 exactly when the phrase appears and is never so preceded; absent exactly when the phrase never appears |
| Autofill.ComplicationsOutcome | backend/app/autofill.py:52-55 | previousComplications is 0 exactly when a negation precedes "complication" on a line, 1 exactly when not and "previous" does, absent otherwise |
| Autofill.FollowedIsMentioned | backend/app/autofill.py:37-40 | a negated phrase is a mentioned phrase, so negation wins over mention |
| Autofill.NoDigitNoSearch | backend/app/autofill.py:9-35 | no numeric pattern matches a text without digits |
| Autofill.NoKeywordNoSearch | backend/app/autofill.py:9-35 | a numeric pattern none of whose keywords occurs in the text finds no match |
| Autofill.NothingToFind | backend/app/autofill.py:5-57 | a text in which no keyword of any numeric pattern, no history phrase and no "complication" occurs gives the empty dictionary, digits or not |
| Autofill.BloodPressureExample | backend/app/autofill.py:13-19 | "BP 120 over 80" gives systolicBP "120" and diastolicBP "80" |
| Autofill.AgeNeedsDigitsNext | backend/app/autofill.py:9-11 | "age is 25" gives no age: only white space may separate keyword and digits |
| Autofill.NegationInsideWord | backend/app/autofill.py:3 | the "no" inside "diagnosed" counts as a negation: "diagnosed with gestational diabetes" gives gestationalDiabetes 0 |
| RiskResult.LevelOf | frontend/src/components/RiskResult.tsx:55-62 | the tier is high exactly for the lower-cased label "high", medium exactly for "medium", low for every other label |
| RiskResult.LevelIgnoresCase | frontend/src/components/RiskResult.tsx:55 | the tier does not depend on the label's case |
| RiskResult.ConfidenceOf | frontend/src/components/RiskResult.tsx:64 | the confidence is the stored score, or 0 when it is missing or null |
| RiskResult.Recommendations | frontend/src/components/RiskResult.tsx:70-81 | always three items: the urgent list exactly for a high tier, the same routine list for medium and low |
| RiskResult.IsUrgent | frontend/src/components/RiskResult.tsx:201-206 | a recommendation styled urgent contains a capital U and is at least six characters long |
| RiskResult.UrgentOpening | frontend/src/components/RiskResult.tsx:72-74 | the first high-tier recommendation contains "URGENT" |
| RiskResult.LaterUrgentAdviceNotUrgent | frontend/src/components/RiskResult.tsx:72-76 | the second and third high-tier recommendations do not contain "URGENT" |
| RiskResult.RoutineAdviceNotUrgent | frontend/src/components/RiskResult.tsx:77-81 | no recommendation of the medium and low tiers contains "URGENT" |
| RiskResult.UrgentOnlyFirstOfHigh | frontend/src/components/RiskResult.tsx:200-207 | a recommendation contains "URGENT" exactly when it is the first item of the high list |
| RiskResult.Interpret | frontend/src/components/RiskResult.tsx:55-90 | the analysis has the label's tier, the defaulted confidence, the one fixed factor and three recommendations, urgent exactly for "high" |
| RiskResult.InterpretExamples | frontend/src/components/RiskResult.tsx:55-81 | "High" with 0.83 gives high, 0.83 and the urgent list; "Medium" gives the routine list; an unknown label gives low; a missing score gives 0 |
| RiskResult.Config | frontend/src/components/RiskResult.tsx:97-124 | low, medium and high show "Low Risk", "Medium Risk" and "High Risk" with the check, triangle and circle icons |
| RiskResult.ConfigDistinguishesTiers | frontend/src/components/RiskResult.tsx:97-124 | different tiers get different headings and different colours |
| RiskResult.ProgressWidth | frontend/src/components/RiskResult.tsx:167 | the bar width is confidence times 100, capped at 100 |
| RiskResult.ProgressOfProbability | frontend/src/components/RiskResult.tsx:167 | a confidence in [0, 1] gives a width in [0, 100] in proportion; a confidence of 1 or more fills the bar |
| RiskResult.Render | frontend/src/components/RiskResult.tsx:93-207 | "Loading..." exactly while record or analysis is missing; otherwise the tier's style, the capped width, the factors, and each recommendation flagged urgent exactly when it contains "URGENT" |
| RiskResult.ReportOfReply | frontend/src/components/RiskResult.tsx:124-207 | the report for a reply shows the tier's heading and the one factor, and highlights only the first recommendation, and only for "high" |
| RiskResult.ResultPage.constructor | frontend/src/components/RiskResult.tsx:34-35 | the page mounts with neither a record nor an analysis |
| RiskResult.ResultPage.Load | frontend/src/components/RiskResult.tsx:37-91 | with either entry missing: redirects to /assessment and sets nothing; otherwise sets the record, and the analysis of the reply when its label is a string; storage is never written |
| RagChat.AnswerText | frontend/src/components/RagChat.tsx:56-59 | the answer if non-empty, else the result if non-empty, else the body's serialisation |
| RagChat.AnswerTextNonEmpty | frontend/src/components/RagChat.tsx:56-59 | the chosen text is empty only when answer, result and serialisation all are |
| RagChat.ReplyText | frontend/src/components/RagChat.tsx:49-74 | a thrown request or an error status gives the fixed apology; a JSON body gives the fallback chain |
| RagChat.AnswerWins | frontend/src/components/RagChat.tsx:57 | a non-empty answer is shown whatever the other fields hold |
| RagChat.Ignored | frontend/src/components/RagChat.tsx:30-31 | a send is ignored exactly when the input is all white space or a reply is awaited |
| RagChat.ChatPanel.constructor | frontend/src/components/RagChat.tsx:11-19 | the log is the greeting with id 1, the input is empty, not loading |
| RagChat.ChatPanel.SetInput | frontend/src/components/RagChat.tsx:151 | only the input changes |
| RagChat.ChatPanel.Send | frontend/src/components/RagChat.tsx:28-40 | an ignored send changes nothing; otherwise appends one user message whose text is the trimmed, non-empty input, clears the input and starts loading; roles keep alternating |
| RagChat.ChatPanel.Receive | frontend/src/components/RagChat.tsx:42-78 | appends exactly one assistant message with the answer or the apology and ends loading |
| RagChat.ChatPanel.HandleSend | frontend/src/components/RagChat.tsx:28-79 | an ignored send changes nothing; otherwise the log grows by exactly the user's question and one assistant reply, nothing is removed or reordered, and loading ends false |
| Handoff.SubmitThenShow | frontend/src/components/RiskResult.tsx:37-91 | in any tab: after a submit with a JSON reply the result page shows the submitted record, with that reply's analysis when it has a string label and no analysis otherwise; a thrown submit leaves storage as it was, so the result page shows what an earlier submit stored, and redirects to /assessment only when nothing was stored |

## Left out

- Floating point: numbers are reals, and infinities are not represented. `Number(...)` and `toFixed(2)` are abstract functions passed in. The BMI division is exact real division.
- `(confidence * 100).toFixed(1)`, the confidence text on the result page, is not modelled. Only the bar width is.
- `Autofill.IsDigit`: `\d` is restricted to ASCII digits. Python's `\d` also matches other Unicode decimal digits.
- `Strings.Lower`: lower-casing is ASCII only, for both Python's `str.lower` and JavaScript's `toLowerCase`.
- Network calls (`fetch` to /parse-text, /predict and /rag/ask) are given as their outcomes: a thrown request, an error status, or a JSON body.
  - The parse service's JSON is given as its `parsed_fields` record.
  - The classifier's JSON is given as its label and score.
  - The chat service's JSON is given as its `answer` and `result` strings and its serialisation.
- JSON serialisation through session storage is taken to preserve the record and the reply.
- `RagChat.AnswerText`: `answer` and `result` are taken to be strings or absent. A non-string truthy value would be shown as it is, and that is not modelled.
- The speech engine is modelled as events. The page's calls on it (start, stop, alert) are a ghost log, and its settings (language, interim results) are left out.
- `Date.now()` message ids are parameters.
- Console logging and the text of the unsupported-browser alert are left out.
- Asynchronous interleaving: each handler, and each half of `handleSend` around its request, is one atomic step.
- In the source, `handleSubmit` sits inside `toggleSpeechToText` at RiskAssessment.tsx line 130, because a closing brace is missing. It is modelled as a sibling handler of the page.
- `RiskResult.ResultPage.Load`: a reply whose label is not a string is modelled as the effect stopping after it sets the record. What React does with the thrown error is not modelled.
- Browser form validation is not modelled. The `required`, `min` and `max` attributes at RiskAssessment.tsx lines 244-471 decide whether `handleSubmit` runs at all. `Intake.AssessmentPage.HandleSubmit` accepts any record.
- Rendering markup, icons' appearance, scrolling and the static text of the pages are not part of this model.
