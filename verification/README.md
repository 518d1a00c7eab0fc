# Voice-dataset client: a Dafny model of its logic

The client is a React application for collecting read-speech recordings. The
user registers, gives some personal data, and then goes through a list of
phrases on the recording page. For each phrase there is a three-second
countdown. Then the phrase's video plays, or a recording starts. Next,
previous and restart buttons move through the list. An API service attaches
the stored bearer token to every request. It also caches a recording-session
id in `localStorage` and builds the multipart form of an audio upload.

This project models four pieces of that client, and proves what each of them
promises:

- `js.dfy` (module `Js`): the JavaScript built-ins that the logic depends on,
  stated over `seq<char>`. These are `trim`, `split` on one character,
  `startsWith`, `replace(/c/g, '')`, `parseInt(_, 10)`, `String(_)`,
  `Number.prototype.toString`, `padStart` and truthiness. The whitespace set
  is the one of ECMA-262, sections 12.2 and 12.3.
- `phrase_csv.dfy` (module `PhraseCsv`): the phrase list. The text is trimmed
  and split into lines, and the header is skipped. Each tokenised row becomes
  a `Phrase`, with its video path normalised.
- `recording_page.dfy` (module `RecordingPage`): the recording page as a state
  machine over a `Page` value. It has:
  - one function per handler and browser event;
  - the three button guards;
  - the level-meter colour and `formatTime`;
  - an event-sequence semantics `Run`, with the invariant that every
    reachable state keeps.
- `recording_controller.dfy` (module `RecordingController`): the same page as
  the component runs it. It is a `Controller` class whose handler methods
  update its state variables in place. Each method is proved to change the
  state exactly as the matching `RecordingPage` function says.
- `api.dfy` (module `Api`): the interceptor's header rule and the upload
  fields: MIME type, file name, `emocao` and the form. It also has a `Client`
  class that holds `localStorage` and the log of sent requests, with
  `getOrCreateSession` and `uploadAudio` as methods. The server's answer is a
  parameter: every reply whose `id` is a string, an integer, a boolean,
  `null` or `undefined` is covered, including one without an `id`.
- `register_page.dfy` (module `RegisterPage`): the registration form and its
  pure handlers. The lists support update at an index, append and remove at an
  index. A user-action semantics shows that neither list is ever emptied.
- `user_info_form.dfy` (module `UserInfoForm`): the four-field form and its
  submit check.
- `wrappers.dfy` (module `Wrappers`): `Option` and `Result`.

The microphone, the video element and the interval timers are abstract:

- Whether `getUserMedia` grants the microphone is a `granted` parameter of
  every step that starts a recording.
- A video's end or failed `play()`, a recorder chunk, and each interval tick
  are events.

## Model

| member | source | states |
|---|---|---|
| Js.Trim | src/pages/RecordingPage.tsx:74 | `trim` leaves no whitespace at either end, is never longer than its input, and returns a text without surrounding whitespace as it is |
| Js.TrimDropsOnlyWhitespace | src/pages/RecordingPage.tsx:74 | the trimmed text is the infix `s[i..j]` of the input with only whitespace in `s[..i]` and `s[j..]`; with its ends not whitespace, this determines `trim` completely |
| Js.TrimStart | src/pages/RecordingPage.tsx:86 | the whitespace skip of `parseInt` keeps a suffix of the input that does not start with whitespace, and everything it drops is whitespace |
| Js.TrimEnd | src/pages/RecordingPage.tsx:74 | the second half of `trim` keeps a prefix that does not end in whitespace, and everything it drops is whitespace |
| Js.RemoveAll | src/pages/RecordingPage.tsx:78 | `replace(/"/g, '')` leaves no quote, removes exactly as many characters as there were quotes, and leaves a quote-free text unchanged |
| Js.RemoveAllKeeps | src/pages/RecordingPage.tsx:78 | every character other than the quote is kept as often as it occurs: the multiset of the result is that of the input with the quote's count set to 0 |
| Js.RemoveAllAppend | src/pages/RecordingPage.tsx:78 | removal works piece by piece, `RemoveAll(a + b) == RemoveAll(a) + RemoveAll(b)`, so the kept characters stay in their order |
| Js.Split | src/pages/RecordingPage.tsx:74 | `split` on one character gives one more part than there are separators, no part holds the separator, and the first part is the prefix before the first separator |
| Js.JoinSplit | src/pages/RecordingPage.tsx:74 | joining the parts of a split with the separator gives back the original text |
| Js.SplitWithoutSeparator | src/services/api.ts:74 | a text without the separator splits into itself alone |
| Js.NatToString | src/pages/RecordingPage.tsx:345-346 | the decimal rendering of a number is a non-empty string of digits with no leading zero, and reading it back gives the number |
| Js.PadStart | src/pages/RecordingPage.tsx:345-346 | `padStart(2, '0')` gives at least the target width, ends with the original text, and adds only fill characters in front |
| Js.LeadingZeros | src/pages/RecordingPage.tsx:345-346 | leading zeros do not change the value of a digit string |
| Js.ParseIntToString | src/pages/RecordingPage.tsx:86 | `parseInt(String(i), 10)` gives back the integer i |
| Js.ParseDigits | src/pages/RecordingPage.tsx:86 | a non-empty digit string is read in full as the number it denotes |
| Js.ParseOneDigit | src/pages/RecordingPage.tsx:86 | a single digit, such as the default `'0'`, is read as its value |
| Js.ParseNegativeDigits | src/pages/RecordingPage.tsx:86 | a minus sign followed by digits is read as the negated number |
| Js.TrimStartKeeps | src/pages/RecordingPage.tsx:86 | a text that does not start with whitespace is not changed by the whitespace skip |
| Js.LeadingDigits | src/pages/RecordingPage.tsx:86 | the digits `parseInt` reads form the longest run of digits at the front of the text |
| Js.AllDigitsAreLeading | src/pages/RecordingPage.tsx:86 | a text made only of digits is read by `parseInt` in full |
| Js.ParseInt | src/pages/RecordingPage.tsx:86 | a text not starting with whitespace is read as a signed number, and a text of whitespace only is NaN |
| Js.ParseIntSkipsWhitespace | src/pages/RecordingPage.tsx:86 | whitespace in front of a number does not change what `parseInt` reads |
| Js.ParseSigned | src/pages/RecordingPage.tsx:86 | a leading digit starts the longest run of digits, read as its value; `+` or `-` followed by a digit reads the run after the sign, negated for `-`; anything else, a bare sign included, is NaN |
| Js.ToString | src/services/api.ts:78 | `String(v)` keeps a string as it is, writes an integer so that `parseInt` reads it back, and is empty only for the empty string |
| PhraseCsv.NormalizeVideoSrc | src/pages/RecordingPage.tsx:79-83 | an empty path gives no video; a path starting with `http` passes through unchanged; any other path is appended to the public URL after one `/`, the path's own leading `/` (one only) being dropped first |
| PhraseCsv.RawVideoSrc | src/pages/RecordingPage.tsx:78 | the third field with its quotes removed and then trimmed, or the empty string when that field is absent or empty; the result holds no quote and has no whitespace at either end |
| PhraseCsv.PlainVideoSrc | src/pages/RecordingPage.tsx:78 | a path written without quotes or surrounding whitespace is taken as it is |
| PhraseCsv.RowId | src/pages/RecordingPage.tsx:86 | the id is `parseInt` of the first field, and 0 when that field is absent or empty |
| PhraseCsv.RowText | src/pages/RecordingPage.tsx:87 | the text is the second field with every quote removed, the empty string when the field is absent or empty, and a quote-free field is kept as it is |
| PhraseCsv.QuotedText | src/pages/RecordingPage.tsx:87 | a field written in quotes, `"x"` with x quote-free, is read as x |
| PhraseCsv.ParseRow | src/pages/RecordingPage.tsx:76-90 | the phrase is made of exactly `RowId`, `RowText` and the normalised `RawVideoSrc` of the row: the id is `parseInt` of the first field, or 0 when it is absent or empty; the text has no `"` and is empty when absent; a row with fewer than three fields has no video; a video path is non-empty and quote-free |
| PhraseCsv.Lines | src/pages/RecordingPage.tsx:74 | the trimmed text splits into one line more than it has line breaks, no line holds a line break, and joining the lines gives back the trimmed text |
| PhraseCsv.Map | src/pages/RecordingPage.tsx:76 | `map` keeps the length and applies the row mapping to each line in order |
| PhraseCsv.ParsePhrases | src/pages/RecordingPage.tsx:74-90 | the header line is skipped, so there is one phrase per line break of the trimmed text; phrase k is the mapping of line k+1, and no phrase text contains `"` |
| PhraseCsv.HeaderOnly | src/pages/RecordingPage.tsx:74-76 | a text with only a header line gives no phrases |
| PhraseCsv.TrimIsInfix | src/pages/RecordingPage.tsx:78 | every character left by `trim` comes from the original text, so trimming a quote-free text keeps it quote-free, and a header without a line break stays one line |
| RecordingPage.Initial | src/pages/RecordingPage.tsx:35-50 | the loaded page starts at phrase 0 with the start modal open, not recording and with no chunks, and satisfies the page invariant |
| RecordingPage.StartRecording | src/pages/RecordingPage.tsx:201-215 | with the microphone granted, recording starts with the timer at 0; when it is refused nothing changes; chunks, index and countdown are never touched |
| RecordingPage.StopRecording | src/pages/RecordingPage.tsx:218-235 | with a recorder, recording stops and nothing else changes; without one the state is unchanged |
| RecordingPage.DataAvailable | src/pages/RecordingPage.tsx:210-212 | each chunk is appended after the earlier ones, in arrival order |
| RecordingPage.RecordingTimerTick | src/pages/RecordingPage.tsx:173-177 | the recording timer advances by one second only while recording |
| RecordingPage.SessionTimerTick | src/pages/RecordingPage.tsx:112-114 | the session time advances by one second on every tick |
| RecordingPage.TriggerPhraseAction | src/pages/RecordingPage.tsx:121-126 | the countdown modal opens at 3 for phrase i, shows its text (empty for a missing phrase), and leaves the index, chunks and recording state alone |
| RecordingPage.PlayVideo | src/pages/RecordingPage.tsx:150-154 | the video gets the source, and both video flags are raised |
| RecordingPage.PhraseAction | src/pages/RecordingPage.tsx:140-147 | after the countdown, a phrase with a video goes to playback; any other phrase stops video playback, keeps the video source and the initial-playback flag, and starts recording (timer 0, recorder created) when the microphone is granted or changes nothing else when it is refused |
| RecordingPage.CountdownTick | src/pages/RecordingPage.tsx:127-139 | a tick above 1 only decrements the countdown; the tick at 1 leaves it at 0, closes the modal and then is exactly the phrase's action for the countdown's phrase; without an open countdown nothing changes |
| RecordingPage.HandleVideoEnd | src/pages/RecordingPage.tsx:163-166 | when the video ends the initial playback is over, and recording starts (timer 0, recorder created) when the microphone is granted; when it is refused nothing else changes |
| RecordingPage.VideoPlayFailed | src/pages/RecordingPage.tsx:155-159 | a failed `play()` clears both video flags and starts no recording |
| RecordingPage.StopIfRecording | src/pages/RecordingPage.tsx:238-240 | a running recording stops when there is a recorder; nothing else changes, and without a recording nothing changes at all |
| RecordingPage.MoveTo | src/pages/RecordingPage.tsx:243-246 | phrase j becomes current with no chunks, and its countdown opens at 3 showing its text; the rest of the page is unchanged and the invariant holds when j is a valid index |
| RecordingPage.HandleStartProcess | src/pages/RecordingPage.tsx:168-171 | the start modal closes and the countdown of the current phrase begins at 3, showing that phrase's text; nothing else changes |
| RecordingPage.HandleNextPhrase | src/pages/RecordingPage.tsx:237-250 | recording stays on only when it was on and no recorder exists (a live recorder is stopped); before the last phrase, the index advances by one, chunks are cleared and that phrase's countdown starts showing its text; at the last phrase the index stays and the finish modal opens; nothing else changes |
| RecordingPage.HandlePreviousPhrase | src/pages/RecordingPage.tsx:252-263 | recording stays on only when it was on and no recorder exists (a live recorder is stopped); above index 0, the index goes back by one, chunks are cleared and that phrase's countdown starts showing its text; at index 0 nothing else changes |
| RecordingPage.HandleRestartRecording | src/pages/RecordingPage.tsx:265-271 | the recording is stopped and chunks are cleared before a new recording of the same phrase starts (timer 0, recorder created) when the microphone is granted; when it is refused only the stop and the cleared chunks remain |
| RecordingPage.ButtonsDisabledDuringPrompt | src/pages/RecordingPage.tsx:443-465 | during the countdown or the initial playback no button changes anything; previous does nothing at index 0, and restart does nothing while a video is shown |
| RecordingPage.PressNext | src/pages/RecordingPage.tsx:458-462 | a press of next runs `handleNextPhrase` exactly when the button is enabled and otherwise changes nothing; the invariant is kept |
| RecordingPage.PressPrevious | src/pages/RecordingPage.tsx:443-446 | a press of previous runs `handlePreviousPhrase` exactly when the button is enabled and otherwise changes nothing; the invariant is kept |
| RecordingPage.PressRestart | src/pages/RecordingPage.tsx:450-454 | a press of restart runs `handleRestartRecording` exactly when the button is enabled and otherwise changes nothing; the invariant is kept |
| RecordingPage.Step | src/pages/RecordingPage.tsx:237-263 | every event keeps the page invariant, moves the index by at most one, and a move to another phrase always clears the chunks and starts that phrase's countdown |
| RecordingPage.Run | src/pages/RecordingPage.tsx:237-263 | any sequence of events keeps the phrase list and the page invariant: the index is a valid position in the list, a recording always has a recorder, and an open countdown shows 1 to 3 for the current phrase |
| RecordingPage.RunAppend | src/pages/RecordingPage.tsx:237-263 | running two sequences of events one after the other is running their concatenation |
| RecordingPage.ReachableIndexInRange | src/pages/RecordingPage.tsx:436-439 | from the loaded page, every reachable state has `0 <= currentPhraseIndex < phrases.length`, so the displayed phrase exists |
| RecordingPage.CountdownTakesThreeTicks | src/pages/RecordingPage.tsx:121-147 | a countdown started at 3 shows 2, then 1, and after the third tick reads 0, is closed, and has played the phrase's video or started recording |
| RecordingPage.DbfsColor | src/pages/RecordingPage.tsx:326-330 | red above -20 dBFS, yellow above -40 up to -20, green otherwise, silence (minus infinity) and NaN included |
| RecordingPage.DbfsColorMonotone | src/pages/RecordingPage.tsx:326-330 | a louder level never gets a quieter colour |
| RecordingPage.FormatTime | src/pages/RecordingPage.tsx:344-348 | `formatTime(t)` is `MM:SS` with at least two minute digits and no zero in front of a third, exactly two second digits, SS < 60, and 60·MM + SS = t |
| RecordingPage.ClockParts | src/pages/RecordingPage.tsx:347 | minutes of two digits, or more without a leading zero, and two-digit seconds joined by `:` read back as the time they add up to |
| RecordingPage.TwoDigitsAtMost | src/pages/RecordingPage.tsx:346 | a seconds value below 60 has at most two digits, so padding gives exactly two |
| RecordingPage.PaddedValue | src/pages/RecordingPage.tsx:345-346 | zero padding keeps a digit string's value |
| RecordingController.Controller.constructor | src/pages/RecordingPage.tsx:35-50 | the component's state hooks start as the initial page |
| RecordingController.Controller.StartRecording | src/pages/RecordingPage.tsx:201-215 | updates the fields exactly as `RecordingPage.StartRecording` |
| RecordingController.Controller.StopRecording | src/pages/RecordingPage.tsx:218-235 | updates the fields exactly as `RecordingPage.StopRecording` |
| RecordingController.Controller.DataAvailable | src/pages/RecordingPage.tsx:210-212 | appends the chunk as `RecordingPage.DataAvailable` and keeps the invariant |
| RecordingController.Controller.RecordingTimerTick | src/pages/RecordingPage.tsx:173-177 | advances the timer as `RecordingPage.RecordingTimerTick` and keeps the invariant |
| RecordingController.Controller.SessionTimerTick | src/pages/RecordingPage.tsx:112-114 | advances the session time as `RecordingPage.SessionTimerTick` and keeps the invariant |
| RecordingController.Controller.TriggerPhraseAction | src/pages/RecordingPage.tsx:121-126 | opens the countdown as `RecordingPage.TriggerPhraseAction` |
| RecordingController.Controller.PlayVideo | src/pages/RecordingPage.tsx:150-154 | starts playback as `RecordingPage.PlayVideo` |
| RecordingController.Controller.PhraseAction | src/pages/RecordingPage.tsx:140-147 | plays the video or starts recording as `RecordingPage.PhraseAction` |
| RecordingController.Controller.CountdownTick | src/pages/RecordingPage.tsx:127-139 | ticks the countdown as `RecordingPage.CountdownTick` and keeps the invariant |
| RecordingController.Controller.FinishCountdown | src/pages/RecordingPage.tsx:129-147 | the tick that finds the countdown at 1 closes it and runs the phrase's action, as `RecordingPage.CountdownTick` |
| RecordingController.Controller.HandleVideoEnd | src/pages/RecordingPage.tsx:163-166 | ends the playback as `RecordingPage.HandleVideoEnd` and keeps the invariant |
| RecordingController.Controller.VideoPlayFailed | src/pages/RecordingPage.tsx:155-159 | clears the video flags as `RecordingPage.VideoPlayFailed` and keeps the invariant |
| RecordingController.Controller.StopIfRecording | src/pages/RecordingPage.tsx:238-240 | stops a running recording as `RecordingPage.StopIfRecording` |
| RecordingController.Controller.MoveTo | src/pages/RecordingPage.tsx:243-246 | shows phrase j afresh as `RecordingPage.MoveTo` |
| RecordingController.Controller.HandleStartProcess | src/pages/RecordingPage.tsx:168-171 | starts the session as `RecordingPage.HandleStartProcess` and keeps the invariant |
| RecordingController.Controller.HandleNextPhrase | src/pages/RecordingPage.tsx:237-250 | moves on as `RecordingPage.HandleNextPhrase` and keeps the index in range |
| RecordingController.Controller.HandlePreviousPhrase | src/pages/RecordingPage.tsx:252-263 | moves back as `RecordingPage.HandlePreviousPhrase` and keeps the index in range |
| RecordingController.Controller.HandleRestartRecording | src/pages/RecordingPage.tsx:265-271 | restarts as `RecordingPage.HandleRestartRecording` and keeps the invariant |
| RecordingController.Controller.PressNext | src/pages/RecordingPage.tsx:458-465 | a press of next runs the handler only when the button is enabled, as `RecordingPage.PressNext` |
| RecordingController.Controller.PressPrevious | src/pages/RecordingPage.tsx:443-449 | a press of previous runs the handler only when the button is enabled, as `RecordingPage.PressPrevious` |
| RecordingController.Controller.PressRestart | src/pages/RecordingPage.tsx:450-457 | a press of restart runs the handler only when the button is enabled, as `RecordingPage.PressRestart` |
| Api.Intercept | src/services/api.ts:10-21 | `Authorization: Bearer <token>` is set exactly when the storage key `token` holds a non-empty value; the other headers are kept, and without a token nothing changes |
| Api.SanitizeMimeType | src/services/api.ts:74 | the sanitised type is the prefix of the blob type before its first `;`, contains no `;`, and a type without parameters is kept as it is |
| Api.SanitizeIdempotent | src/services/api.ts:74 | sanitising a sanitised type changes nothing |
| Api.Emocao | src/services/api.ts:80-81 | the emotion id (as a string) when the dataset id is the string `'3'` and the emotion id is truthy; `"none"` otherwise, including for the number 3 |
| Api.UploadFilename | src/services/api.ts:77 | `recording.` followed by `String(format)` when the format is truthy, and `recording.webm` when it is missing or empty |
| Api.TruthyNotEmpty | src/services/api.ts:56-60 | a truthy value never becomes the empty string when stored or appended |
| Api.UploadForm | src/services/api.ts:73-82 | four entries in order: the audio with its bytes kept, the sanitised type of the blob and the upload file name; `id_session`; a non-empty `emocao`; `claimed_duration` as a string |
| Api.Client.Send | src/services/api.ts:10-17 | every request leaves with the headers the interceptor gives it, and storage is not changed |
| Api.Client.GetOrCreateSession | src/services/api.ts:43-68 | a stored session id is returned with no request and no storage change; otherwise exactly one session request is sent; a failed request or a reply without a truthy id fails and leaves storage unchanged; a truthy id is stored under `recordingSessionId` and returned |
| Api.Client.UploadAudio | src/services/api.ts:70-96 | when a session id is obtained (cached, or a truthy id in the reply), storage ends holding it (unchanged when cached, the reply's id as a string otherwise), the requests sent are exactly the session request when nothing was cached followed by the multipart form carrying that id, and the call returns that form when the upload succeeds and fails with the request error otherwise; when none is obtained, nothing but the session request is sent, storage is unchanged, and the call fails with the session error |
| Api.SessionIsReused | src/services/api.ts:43-62 | after a call that creates a session, a second call returns the stored id without a further request, whatever the server would answer |
| RegisterPage.InitialForm | src/pages/RegisterPage.tsx:10-20 | every text field is empty, both addresses are blank, and each list holds exactly one blank entry |
| RegisterPage.SetAddress | src/pages/RegisterPage.tsx:34 | an address spread sets one sub-field and keeps the other |
| RegisterPage.HandleChange | src/pages/RegisterPage.tsx:26-29 | exactly the named top-level field changes; the others, the addresses and both lists are unchanged |
| RegisterPage.HandleNestedChange | src/pages/RegisterPage.tsx:31-36 | one sub-field of one address changes; its sibling, the other address and all other fields are unchanged |
| RegisterPage.UpdateAt | src/pages/RegisterPage.tsx:39-47 | the fresh copy has the same length, the new entry at i and every other entry unchanged |
| RegisterPage.Append | src/pages/RegisterPage.tsx:54 | one more entry at the end, the earlier entries unchanged |
| RegisterPage.RemoveAt | src/pages/RegisterPage.tsx:61 | the index filter drops exactly entry i and keeps the rest in order, one shorter; an index outside the list drops nothing |
| RegisterPage.RemoveAtEntries | src/pages/RegisterPage.tsx:61 | after removal, the entries before i are in place and the ones after i move down by one |
| RegisterPage.HandleHistoricoChange | src/pages/RegisterPage.tsx:38-49 | only entry i changes and the length is kept; with a sub-field only that part of its address changes, without one only its period; the rest of the form is unchanged |
| RegisterPage.AddHistorico | src/pages/RegisterPage.tsx:51-56 | one blank entry is appended, the earlier ones and the rest of the form unchanged |
| RegisterPage.RemoveHistorico | src/pages/RegisterPage.tsx:58-63 | entry i is dropped and the rest kept in order; an index outside the list changes nothing |
| RegisterPage.HandleFamiliarChange | src/pages/RegisterPage.tsx:65-76 | only entry i changes and the length is kept; with a sub-field only that part of its address changes, without one only the named field |
| RegisterPage.AddFamiliar | src/pages/RegisterPage.tsx:78-83 | one blank relative is appended, the earlier ones and the rest of the form unchanged |
| RegisterPage.RemoveFamiliar | src/pages/RegisterPage.tsx:85-90 | entry i is dropped and the rest kept in order; an index outside the list changes nothing |
| RegisterPage.Apply | src/pages/RegisterPage.tsx:153-198 | an action on a row not on screen, or a click on a remove button disabled at length 1, changes nothing; an enabled remove drops one entry of its own list, an add appends one, and every other action keeps both lengths |
| RegisterPage.ApplyAll | src/pages/RegisterPage.tsx:153-198 | over a run of actions, each list grows by at most one entry per action |
| RegisterPage.ApplyKeepsListsNonEmpty | src/pages/RegisterPage.tsx:168-198 | with the remove buttons disabled at length 1, no action empties a non-empty list |
| RegisterPage.ListsNeverEmpty | src/pages/RegisterPage.tsx:168-198 | any sequence of user actions keeps both lists non-empty |
| RegisterPage.FromInitialListsNeverEmpty | src/pages/RegisterPage.tsx:10-20 | starting from the initial form, neither list is ever emptied |
| UserInfoForm.InitialInfo | src/components/UserInfoForm.tsx:32-37 | all four fields start empty |
| UserInfoForm.HandleChange | src/components/UserInfoForm.tsx:39-47 | the named field takes the value and the other three are unchanged, for both `handleChange` and `handleSelectChange` |
| UserInfoForm.HandleSubmit | src/components/UserInfoForm.tsx:49-56 | `onSubmit` receives the record exactly when all four fields are non-empty; otherwise the alert is shown |
| UserInfoForm.InitialIsRejected | src/components/UserInfoForm.tsx:49-56 | submitting the untouched form is rejected |
| UserInfoForm.FilledFormIsSubmitted | src/components/UserInfoForm.tsx:39-56 | after the four fields are filled with non-empty values, in any order, the submit passes exactly those values |

## Left out

- Rendering is not modelled. This covers JSX, the modals' markup and the canvas waveform drawing (src/pages/RecordingPage.tsx:297-321).
- The modals' backdrops are not modelled. Only the buttons' `disabled` expressions guard a press.
- The level computation (src/pages/RecordingPage.tsx:279-295) is not modelled. It is floating-point numerics over `Math.sqrt` and `Math.log10`. `RecordingPage.DbfsColor` takes the resulting number as an input.
- `getUserMedia`, `AudioContext`, `MediaRecorder`, `requestAnimationFrame` and video `play()` are devices. Their outcomes are inputs:
  - the microphone answer is the `granted` parameter;
  - a recorded chunk is an event;
  - a video's end or failure is an event.
- RecordingPage.StartRecording: the `getUserMedia` await is collapsed into one step, so no other event can arrive between the request and the start of the recording.
- RecordingPage.HandleStartProcess: the handler runs only while the start modal is open, the only place its button is shown. Once the modal is closed a call changes nothing, where the source would start another countdown.
- RecordingPage.CountdownTick: the countdown runs on its own `setInterval`; here each tick is one event, and the wall-clock timing is not modelled.
- The session id shown on the recording page is not modelled. It comes from `Date.now` and `Math.random` (src/pages/RecordingPage.tsx:108).
- `downloadAudio` (src/pages/RecordingPage.tsx:332-342) is not modelled, because it only hands a file to the browser.
- The loading spinner is not modelled.
- The `fetch` of `phrases.csv` is not modelled. The controller starts from the phrase list the fetch produced, which is an empty list when it failed.
- The CSV tokenising regular expression (src/pages/RecordingPage.tsx:77) is not modelled. It is the `tokenize` parameter of `PhraseCsv.ParsePhrases`.
- The header row's `split(',')` (src/pages/RecordingPage.tsx:75) is computed and never used, so it is not modelled.
- Js.ParseInt: numbers are the unbounded integers and NaN, not IEEE doubles. Beyond 2^53 JavaScript rounds the value it reads, a run of about 310 digits or more reads as `Infinity`, and none of this is modelled. `parseInt("-0")` is negative zero in JavaScript, and here it is 0; both print as `0`.
- Js.ParseIntToString: the round trip holds for the model's unbounded integers. In JavaScript it also needs the value to be a safe integer, because `String` writes 1e21 and above in exponent form and a rounded double does not read back as the integer it came from.
- Api.Client.GetOrCreateSession: a session reply whose `id` is an object, an array or a non-integer number is not expressible in the model's `JsValue`, so the stored text for such ids (`[object Object]`, `1.5`) and the form field carrying them are not covered.
- Js.ToString: `String(x)` is modelled for integers, NaN, booleans, `null`, `undefined` and strings. Objects, non-integer numbers, infinities and the exponent form used from 1e21 on are not covered.
- Api.UploadForm: the `Blob` constructor's normalisation of its `type` (lower-casing it, or dropping a non-ASCII one) is not modelled. The sanitised string is kept as it is.
- Api.Client.UploadAudio: the server's answer to the upload is a success flag. The returned value is the form that was sent, not `response.data`.
- The axios transport, `loginUser`, `registerUser` and `fetchPhrases` are network I/O and not modelled. The same goes for the base URL.
- The console logging in the API service is not modelled.
- `AuthContext.tsx` is not part of this model. It stores the login token under `access_token`, while the interceptor reads `token`. The model keeps only the interceptor's key, so it makes no claim that a logged-in user's requests carry the header.
- `ConsentScreen.tsx`, `HomePage.tsx`, `App.tsx` and `test_api.py` are not part of this model. They are presentation, routing and network tests.
- The registration submit (a network call) is not modelled, and neither is the HTML `min`/`max` on the age input.
- RegisterPage.HandleHistoricoChange: the handler copies the list from the rendered form instead of the updater's `prev`. When React applies one update at a time, as modelled here, the two are the same. Batched updates are not modelled.
- RegisterPage.HandleFamiliarChange: the same copy from the rendered form. Batched updates are not modelled.
- The client has no phrase de-duplication, no resume of saved progress, no multi-part sequencing and no upload from the recording page, so the model has none.
