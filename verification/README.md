# MindCare AI analysis lifecycle — a Dafny model

This project models the one piece of real logic in the MindCare AI browser
controller (`MindCareAI` in `app/frontend/public/app.js`): the lifecycle of an
analysis. The user's text is trimmed and checked. It is sent to the `/analyze`
endpoint. The reply's `{prediction, confidence}` pair is read as an emotional
state and a severity tier. The resulting record is prepended to a
most-recent-first history, under the discipline of the `isAnalyzing` flag.
Around that sit the history operations (view an entry, clear with
confirmation), the recommendation lookup and the feedback buttons' guard.

The controller's state is the immutable record
`Controller(history, isAnalyzing)`, and every operation is a pure function:

- The parts of a submission (`Begin`, `Finish`, `SubmitEvent`) and
  `ViewHistoryItem` return a `Step`: the new state plus a list of `Effect`s,
  what the page is asked to do (show an error, toggle the loading state, send
  a request, display a result, clear or fill the text field).
- `SetLoadingState` and `ClearHistory` return only the new `Controller`.
- `Validate` returns a `Result`: the trimmed text or the reason for rejection.
- `SendFeedback` returns a `FeedbackOutcome` (the request issued, if any, and
  the status text) and no state, since it never changes any.
- `Lifecycle.Next` returns a `Machine`: the controller plus the text of the
  submission still awaiting its reply.

Inputs that come from outside the controller are parameters:

- the text field's value (`None` when the element is missing);
- the network reply: delivered body, non-ok status with its error text, or a thrown error;
- `Date.now()` and `new Date().toISOString()`, as a `Clock`;
- the answer of the `confirm()` dialog, and whether the text field exists;
- the user id and whether the feedback POST succeeded.

Modules:

- `Wrappers`: `Option` and `Result`.
- `JsString`: `String.prototype.trim` with the ECMAScript WhiteSpace and
  LineTerminator code points, and the JavaScript `length` of a string in UTF-16
  code units (a character outside the Basic Multilingual Plane counts twice).
- `Interpretation`: prediction → emotional state and confidence → severity tier.
- `Recommendations`: the fixed resource table and `generateRecommendations`.
- `History`: the `Analysis` record and find-first lookup by id.
- `Backend`: what `callBackendAnalyze` makes of a reply.
- `Session`: validation, `setLoadingState`, the record built from a reply, a
  submission split at its `await` (`Begin`, `Finish`) and run whole
  (`SubmitEvent`), the Ctrl+Enter guard, `viewHistoryItem` and `clearHistory`.
- `Feedback`: the `sendFeedback` guard and its status text.
- `Lifecycle`: the controller as an event machine over interleaved events, with
  invariants over every event sequence.

Points where the code behaves differently from what a reader might expect,
and which the model follows as written:

- `handleAnalysis` has no "already in progress" error. The only guards are the
  Ctrl+Enter check and the disabled button. They appear as the precondition of
  `Session.SubmitEvent` and as the no-op submit in `Lifecycle.Next`.
- There is no range check on `confidence` and no check that `prediction` is 0
  or 1. Any confidence gets a tier, and any prediction other than 1 is Normal.
- The record built from a reply never copies a server-side analysis id, and the
  backend (`app/backend/app.py`) never sends one. So the feedback guard always
  fires (`Lifecycle.FeedbackNeverSent`).
- Ids come from the clock with no collision check. The model does not claim
  they are unique. Lookup returns the newest record with the id
  (`History.FindAfterPrepend`).
- `generateRecommendations` is keyed by lower-case `low`/`moderate`/`high`.
  The tiers the controller stores are capitalised. Looking up a stored tier
  would therefore always give the low list
  (`Recommendations.SeverityLabelSelectsLowList`). No shown code calls it with a
  stored tier.

## Model

| member | source | states |
|---|---|---|
| JsString.Trim | app/frontend/public/app.js:168 | the trimmed text is a slice of the input with only whitespace cut from either side and no whitespace left at either end |
| JsString.TrimUnique | app/frontend/public/app.js:168 | any slice with whitespace around it and none at its ends is exactly the trimmed text |
| JsString.TrimIdempotent | app/frontend/public/app.js:168 | trimming twice gives the same text as trimming once |
| JsString.TrimEmptyIffAllWhitespace | app/frontend/public/app.js:168-173 | the trimmed text is empty exactly when every character of the input is whitespace |
| JsString.Utf16Length | app/frontend/public/app.js:175 | the JavaScript length lies between one and two code units per character, equals the character count exactly when no character is supplementary, and a single character counts two code units exactly when it is supplementary |
| JsString.Utf16LengthAppend | app/frontend/public/app.js:175 | the JavaScript length of a concatenation is the sum of the lengths of its parts |
| Interpretation.EmotionalStateOf | app/frontend/public/app.js:189 | the state is Depression exactly when the prediction equals 1, Normal otherwise |
| Interpretation.SeverityOf | app/frontend/public/app.js:190 | High exactly above 0.8, Moderate exactly in (0.6, 0.8], Low exactly at or below 0.6; total over all confidences |
| Interpretation.SeverityCountsThresholds | app/frontend/public/app.js:190 | the tier's rank equals the number of thresholds (0.6, 0.8) the confidence strictly exceeds |
| Interpretation.SeverityMonotone | app/frontend/public/app.js:190 | a higher confidence never gives a lower tier |
| Interpretation.SeverityBoundaries | app/frontend/public/app.js:190 | 0.6 is Low, 0.61 and 0.8 are Moderate, 0.81 is High |
| Recommendations.GenerateRecommendations | app/frontend/public/app.js:154-156 | "moderate" and "high" select their lists; every other key falls back to the low list; the result always has two resources |
| Recommendations.CrisisLinesOnlyForHighKey | app/frontend/public/app.js:154-156 | the crisis-line list is returned exactly for the key "high" |
| Recommendations.SeverityLabelSelectsLowList | app/frontend/public/app.js:154-156 | no stored tier label is a key of the table, so looking one up yields the low list |
| History.FirstIndexOf | app/frontend/public/app.js:404 | the index of the first record with the id, none exactly when no record has it |
| History.FindById | app/frontend/public/app.js:403-405 | the record found has the id, and no earlier record has it; nothing is found exactly when no record has the id |
| History.FindAfterPrepend | app/frontend/public/app.js:207 | after a prepend, the new record answers for its id and shadows older records with the same id; other ids are answered as before |
| Backend.CallBackendAnalyze | app/frontend/public/app.js:131-143 | a body exactly for a delivered reply; a non-ok reply throws its non-empty error text or the default message; a rejected fetch or unparsable body passes its own error message through unchanged |
| Session.Validate | app/frontend/public/app.js:168-178 | accepted text is the trimmed input with JavaScript length at least 5; empty-input error exactly when the trimmed text is empty; too-short error exactly when it is non-empty but shorter than 5 |
| Session.ValidateAcceptsExactly | app/frontend/public/app.js:170-178 | acceptance depends only on the trimmed length; all-whitespace input is rejected as empty |
| Session.TwoLettersTooShort | app/frontend/public/app.js:175-178 | "hi" is rejected as too short |
| Session.BlankInputEmpty | app/frontend/public/app.js:170-173 | blank input is rejected as empty |
| Session.PaddedInputTrimmed | app/frontend/public/app.js:168 | padded input is accepted as its trimmed text |
| Session.ThreeEmojiAccepted | app/frontend/public/app.js:175 | three emoji count as six code units and are accepted |
| Session.FiveCodeUnitsAccepted | app/frontend/public/app.js:175 | four characters that make five code units meet the minimum exactly and are accepted |
| Session.SetLoadingState | app/frontend/public/app.js:227-229 | the flag takes the requested value and the history is unchanged |
| Session.BuildAnalysis | app/frontend/public/app.js:189-202 | the record interprets prediction and confidence, keeps the text, confidence and explanation, takes id and timestamp from the clock, and never carries a server-side id |
| Session.Begin | app/frontend/public/app.js:158-185 | a request is made exactly for accepted input, after raising the flag; otherwise the state is unchanged and no loading change or request happens |
| Session.Finish | app/frontend/public/app.js:185-224 | the flag ends false; a delivered reply prepends its record; a failure leaves the history unchanged and shows the thrown message; lowering the flag is the last effect |
| Session.SubmitEvent | app/frontend/public/app.js:158-225 | rejected input changes nothing and makes no request; accepted input raises the flag first, sends the trimmed text, and lowers the flag last; success grows the history by exactly the new record at the front; failure leaves it unchanged |
| Session.RejectionIgnoresReply | app/frontend/public/app.js:168-178 | a rejected submission's outcome does not depend on any reply or clock |
| Session.ShortcutDispatches | app/frontend/public/app.js:120-125 | Ctrl+Enter submits exactly when the form exists and no analysis is in progress |
| Session.ViewHistoryItem | app/frontend/public/app.js:403-415 | the state never changes; the first record with the id is displayed, and its input restored exactly when the text field exists; nothing happens when no record has the id |
| Session.ClearHistory | app/frontend/public/app.js:417-422 | with confirmation the history becomes empty; without it nothing changes; the flag is untouched |
| Session.ClearHistoryIdempotent | app/frontend/public/app.js:417-422 | clearing twice equals clearing once |
| Feedback.FeedbackRequestFor | app/frontend/public/app.js:551-555 | no request exactly when the history is empty or its head has no non-empty server-side id; otherwise the request carries that id |
| Feedback.SendFeedback | app/frontend/public/app.js:550-574 | the guard's status exactly when no request is made; otherwise thanks exactly when the POST was delivered |
| Lifecycle.Next | app/frontend/public/app.js:116-125 | a submit while the flag is set changes nothing; a reply to an outstanding submission lowers the flag; viewing changes nothing |
| Lifecycle.ShortcutStartsSubmission | app/frontend/public/app.js:120-125 | a Ctrl+Enter that dispatches finds nothing outstanding, so the submit meets the idle precondition, and it starts exactly the submission `Begin` describes |
| Lifecycle.NextConsistent | app/frontend/public/app.js:192-229 | every event keeps the flag set exactly while a submission is outstanding and keeps every record free of a server-side id |
| Lifecycle.RunConsistent | app/frontend/public/app.js:192-229 | every event sequence keeps that invariant |
| Lifecycle.FeedbackNeverSent | app/frontend/public/app.js:551-555 | after any event sequence from the start state, sending feedback issues no request and reports that there is nothing to rate |
| Lifecycle.ReplyAlwaysIdles | app/frontend/public/app.js:222-224 | after any event sequence, a reply leaves the flag false |
| Lifecycle.SplitMatchesWhole | app/frontend/public/app.js:180-224 | a submit followed directly by its reply gives the same controller as the whole submission |
| Lifecycle.OneRound | app/frontend/public/app.js:207 | an accepted, delivered submission from idle prepends its record and returns to idle |
| Lifecycle.RoundsNewestFirst | app/frontend/public/app.js:207 | after any number of accepted, delivered submissions, the history lists their records newest first ahead of the earlier history |

## Left out

- DOM and presentation: `displayResults` and its helpers, `updateHistoryDisplay`, `updateCharCount`, themes, the emergency modal, `showError` styling and the `setTimeout` animations. They appear only as `Effect` values or not at all.
- Transport: the `fetch` calls, headers and JSON parsing. A reply is an input; a body that is not JSON appears as a thrown error.
- `getUserId` (local storage and `Math.random`) and the clock: both are parameters.
- JSON values that are not numbers: a string, `null`, `NaN` or `Infinity` in `prediction` or `confidence` would go through JavaScript coercion. The model takes both as `real`.
- Interpretation.SeverityOf: compares exact reals with 0.8 and 0.6, not IEEE doubles. A confidence stands for the real written by the shortest decimal that denotes its double, which is what the backend's JSON encoder emits (app/backend/app.py:41-48). For such decimals rounding to the nearest double is monotone and maps 0.8 and 0.6 to the thresholds' own doubles, so every comparison agrees. The exact binary value of a double (0.8 is really 0.8000000000000000444…) or a longer JSON text such as `0.80000000000000001` is not what the model's real stands for; read that way the model would say High where JavaScript says Moderate.
- Recommendations.GenerateRecommendations: keys inherited from JavaScript's object prototype (such as `"constructor"`) are not modelled. They would return a non-list truthy value.
- Backend.CallBackendAnalyze: a non-string `error` field in a non-ok body is not modelled.
- Exceptions thrown by the page after the record is prepended (inside `displayResults`): these would show an error with the history already updated. They are not modelled.
- Overlapping submissions: the event machine never starts a second submission while one is outstanding, since both UI gates prevent it. The code itself has no guard.
- Console logging (`console.log` and `console.error` throughout `handleAnalysis` and `setLoadingState`): it has no effect on state and is not modelled.
- Lone surrogates: a JavaScript string can hold an unpaired UTF-16 surrogate, which a Dafny string (a sequence of Unicode scalar values) cannot. Input containing one is not modelled.
- Feedback.SendFeedback: the three-second reset of the status text is not modelled.
- The backend (`app/backend/app.py` routes, `recommendations.py`, `inference.py`), text cleaning, model loading, prediction and the offline training and evaluation scripts are not part of this model.
