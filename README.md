# ELDA core, modelled in Dafny

ELDA is an assistant for older computer users. This project models the parts of
it that make decisions rather than draw windows or call services:

- **Level agents.** `volume.py` and `brightness.py` turn a text command into
  one branch of a keyword chain. A branch adjusts the level, sets it, reports
  it or only prints a message. These two agents clamp every level they set to
  [0, 100]. `LevelCommands` holds the chain the two share, and `Levels` holds
  the clamp. `increasevolume.py` raises the volume by a fixed amount, and caps
  it at 100 only (`IncreaseVolume`). The volume or brightness the operating
  system holds is a field of a class (`Volume.SystemVolume`,
  `Brightness.Display`). The class also logs every value sent to the
  actuator.
- **Voice pipeline.** `speech2text/stt_capture.py` records, transcribes,
  classifies, dispatches and then deletes the clip. `SttCapture.SpeechPipeline`
  keeps the files on disk and an event log. Whisper and Gemini are inputs that
  either give a value or raise.
- **Step-guide replies.** These modules extract JSON from a model's reply,
  apply defaults, validate it and render it:
  - `HowtoGenerator` covers the fence stripping, the five-step validator and
    the HTTP status of `speech2text/howto_generator.py`;
  - `TaskHelper`, `TaskHelperPopup` and `TaskHelperGradio` cover the three
    task-breakdown front ends.

  `json.loads` is a parameter `parse: string -> Result<Json>`. `Json` is the
  parsed value, with objects as lists of members. `PyJson` gives Python's
  `in`, `[]`, `.get`, iteration and `str()` on it. `PyText` gives `strip`,
  `lower`, `find`, `rfind`, `split`, `replace`, slicing and `\d+`.
- **Desktop chat.** `EldaDesktop` covers `instructions/elda_desktop.py`:
  - the step-by-step request detector;
  - the routing of a question to `generate_steps` or to `ask_gemini`;
  - the chat lines the exchange leaves;
  - the `StepModal` check-box counter, as a class.
- **Test server.** `AppTest` covers `instructions/app_test.py`: the `/ask` and
  `/generate-steps` handlers of the mock web server.
- **Tutorial windows.**
  - `Tutorial` holds the five recipe-search steps both Electron front ends share.
  - `TutorialApp` covers the React component `elda-app/renderer/App.jsx`:
    saved progress, the duplicate-free completed list and the reset on finish.
  - `RendererApp` covers the plain script `elda-app/renderer/app.js`: a bounded
    index that wraps on the finishing click.

Two properties of `speech2text/stt_capture.py` hold as the code is written:

- `detect_intent` has no keyword fallback and does not map an unexpected
  label to `other`. It returns the model's reply stripped and lowercased, and
  returns `other` only when the call raises. An unknown label then takes no
  branch of `handle_command` (`SttCapture.UnknownLabelPassesThrough`).
- The `handle_command` chain has no else branch, so the `other` intent has no
  handler of its own.

## Model

| member | source | states |
|---|---|---|
| Levels.Clamp | volume.py:15 | the result is in [0, 100]; it is the argument when that is in range, and 0 or 100 beyond either end |
| Levels.ClampIdempotent | brightness.py:55-58 | clamping a clamped value again changes nothing, so `set_brightness` re-clamping the target of `adjust_brightness` is harmless |
| Levels.ClampMonotone | volume.py:26 | clamping keeps the order of its arguments |
| LevelCommands.Normalize | volume.py:35 | the text is lowercase and has no surrounding blanks; it is empty exactly when the command is blank |
| LevelCommands.NormalizeIdempotent | volume.py:35 | lowercasing and stripping twice is doing it once |
| LevelCommands.Amount | volume.py:40-41 | the amount is the first digit run's value, or 10 when the text has no digit; it is never negative |
| LevelCommands.Classify | volume.py:38-77 | a keyword group's branch is taken only when one of its words occurs in the text; the help message exactly when no word of any group, nor "set" or "to", does |
| LevelCommands.ActionFor | volume.py:38-77 | a relative change exactly for the increase and decrease branches, a set level never negative, a report exactly for the status branch, help exactly for unrecognised text |
| LevelCommands.Decide | volume.py:35-77 | the same, for the branch of the lowercased, stripped command |
| LevelCommands.Target | volume.py:24-29 | only adjust and set actions write; the value written is always in [0, 100], and is the exact sum or level when that is in range |
| LevelCommands.DecideOnNormalForm | volume.py:35 | the decision depends only on the lowercased, stripped command |
| LevelCommands.BranchPriority | volume.py:38-77 | exactly one branch is taken: each keyword group is chosen exactly when it matches and every earlier group does not |
| LevelCommands.IncreaseAmount | volume.py:38-42 | an increase adjusts by the amount of the normalised text |
| LevelCommands.DecreaseAmount | volume.py:45-48 | a decrease adjusts by the negated amount |
| LevelCommands.NoWriteBranches | volume.py:51-77 | "set"/"to" without digits, status words and unrecognised text write nothing |
| LevelCommands.SetToNumber | volume.py:51-54 | "set"/"to" with a number writes that number, clamped |
| LevelCommands.FloorWritesZero | volume.py:59-60 | the floor words ("mute"; "min", "minimum", "darkest") write 0 |
| LevelCommands.CeilingWritesHundred | volume.py:63-64 | the ceiling words write 100 |
| LevelCommands.TargetReclampIsIdentity | brightness.py:55-58 | clamping a written level again changes nothing |
| Volume.LevelAfter | volume.py:13-77 | the volume changes only to the written target, and only when no call raised; otherwise it stays |
| Volume.WritesOf | volume.py:13-77 | a command sends at most one value, that of its target, and sends nothing when the branch writes nothing or an adjustment's read raised |
| Volume.CommandKeepsRange | volume.py:13-77 | from a volume in range, every command leaves the volume in range; each value sent is in range and becomes the volume unless the call raised |
| Volume.FailureKeepsVolume | volume.py:16-30 | for an action whose target differs from the volume, the command raises exactly when the volume stays as it was |
| Volume.FailedMuteKeepsVolume | volume.py:16-19 | "mute" whose `osascript` fails sends 0, raises, and leaves the volume as it was |
| Volume.IncreaseBy20 | volume.py:38-42 | "increase volume by 20" adjusts by +20 |
| Volume.MuteSetsZero | volume.py:59-60 | "mute" sets 0 |
| Volume.UnmuteMutes | volume.py:59-60 | "unmute" contains "mute" and so also sets 0 |
| Volume.ToShadowsMax | volume.py:51-64 | "turn volume to max" hits the "to" branch first, finds no number and writes nothing |
| Volume.SystemVolume.constructor | volume.py:4-11 | the volume starts at the given in-range level with nothing sent |
| Volume.SystemVolume.GetCurrentVolume | volume.py:4-11 | the current volume, or none when the output does not convert and `int` raises |
| Volume.SystemVolume.SetVolume | volume.py:13-20 | sends the clamped level once; it raises exactly when `osascript` fails (`check=True`), and the volume becomes the level exactly when it does not |
| Volume.SystemVolume.AdjustVolume | volume.py:22-31 | a read that raises sends nothing; otherwise sends `clamp(current + change)` once, which becomes the volume unless `osascript` fails and raises |
| Volume.SystemVolume.ParseCommand | volume.py:33-77 | whether it raises, the new volume and the values sent are those of the decided action; the range invariant is kept |
| Volume.SystemVolume.CarryOut | volume.py:38-77 | one branch's calls: adjust, set, read or nothing, with whether it raises, the new volume and the values sent stated for each action |
| IncreaseVolume.Raised | increasevolume.py:4 | never above 100; the plain sum when it is at most 100, else 100 |
| IncreaseVolume.RaisedAgreesWithAdjust | increasevolume.py:2-5 | for a non-negative amount from an in-range volume, the result is in range and equals the clamped sum |
| IncreaseVolume.NegativeAmountGoesBelowZero | increasevolume.py:4 | there is no lower bound: 5 raised by -10 sends -5 |
| IncreaseVolume.Increase | increasevolume.py:2-6 | raises (`ValueError`) exactly when the read does not convert, and then sends nothing; otherwise one write of the raised value, which becomes the volume when `os.system` exits 0; nothing else raises; the amount defaults to 10 |
| Brightness.Percent | brightness.py:21-22 | the scale factor truncated: 0 maps to 0, 255 to 100, [0, 255] into [0, 100], and `r*255 <= raw*100 < (r+1)*255` |
| Brightness.GetCurrentBrightness | brightness.py:4-28 | the converted reading when the AppleScript query fails and `brightnessctl get` succeeds with an integer, otherwise 50 |
| Brightness.SuccessfulQueryIgnored | brightness.py:7-13 | a successful AppleScript query is discarded and 50 is returned |
| Brightness.FailureYieldsFallback | brightness.py:25-28 | a raising call, or a reading that does not convert, yields 50 |
| Brightness.PercentMonotone | brightness.py:21-22 | a larger raw reading never gives a smaller percentage |
| Brightness.SetCommands | brightness.py:30-51 | `brightnessctl set` is always tried first; the AppleScript fallback runs exactly when it exits non-zero; both use the same level |
| Brightness.Applied | brightness.py:30-51 | the level is applied when `brightnessctl` exits 0, or exits non-zero and the AppleScript fallback exits 0 |
| Brightness.MissingControlSkipsFallback | brightness.py:35-51 | a raising `brightnessctl` skips the fallback and applies nothing |
| Brightness.CommandsFor | brightness.py:61-104 | branches that write nothing run no command; the others run the set commands for the target |
| Brightness.DimToThirty | brightness.py:73-76 | "dim to 30" is a decrease by 30, because the decrease words are tried before "to" |
| Brightness.MinSetsZero | brightness.py:87-88 | "min" sets 0 |
| Brightness.FullSetsHundred | brightness.py:90-91 | "full" sets 100 |
| Brightness.DimFromFallback | brightness.py:7-13 | with the AppleScript query succeeding, "dim to 30" always targets 20 |
| Brightness.Display.constructor | brightness.py:4-28 | the brightness starts at the given in-range level with nothing sent |
| Brightness.Display.SetBrightness | brightness.py:30-51 | the commands sent for the clamped level, and the level changes exactly when one of them applies it |
| Brightness.Display.AdjustBrightness | brightness.py:53-59 | targets `clamp(reading + change)` and sets it |
| Brightness.Display.ParseCommand | brightness.py:61-104 | the commands and new level of the decided action, with the range invariant kept |
| Brightness.Display.CarryOut | brightness.py:66-96 | one branch's calls: adjust, set, read or nothing |
| SttCapture.TranscriptOf | speech2text/stt_capture.py:32-47 | the service's text, or None exactly when the service raised |
| SttCapture.IntentOf | speech2text/stt_capture.py:67-78 | the reply stripped and lowercased, or "other" when the call raised |
| SttCapture.IntentIsNormal | speech2text/stt_capture.py:73 | every label returned is lowercase and unpadded: normalising it again changes nothing |
| SttCapture.UnknownLabelPassesThrough | speech2text/stt_capture.py:73-75 | an unrecognised reply is returned as it is, not mapped to "other" |
| SttCapture.Dispatch | speech2text/stt_capture.py:81-109 | an empty or missing transcript takes no branch; the how-to branch is taken exactly for its label; unknown labels take none |
| SttCapture.EffectsOf | speech2text/stt_capture.py:102-106 | only the how-to branch has an effect: one trigger carrying the transcript |
| SttCapture.PipelineTrace | speech2text/stt_capture.py:111-135 | a run always starts by recording and asking for a transcription, and goes on exactly when Whisper gave a non-empty text |
| SttCapture.ClipKept | speech2text/stt_capture.py:121-135 | the clip is gone exactly when Whisper gave a non-empty text and the removal worked |
| SttCapture.NoTranscriptStops | speech2text/stt_capture.py:121-123 | without a transcript, nothing follows transcription, and the clip stays on disk |
| SttCapture.TranscriptRuns | speech2text/stt_capture.py:125-135 | with a transcript, the classifier sees it unchanged, the trigger occurs exactly for the how-to label, and removal comes last |
| SttCapture.TriggerPosition | speech2text/stt_capture.py:102-129 | a trigger can only come right after classification, with the transcript |
| SttCapture.AtMostOneTrigger | speech2text/stt_capture.py:102-106 | a run triggers the Electron window at most once |
| SttCapture.UnknownLabelTakesNoBranch | speech2text/stt_capture.py:89-109 | a label outside the four takes no branch and has no effect |
| SttCapture.FailedClassificationTakesNoBranch | speech2text/stt_capture.py:76-78 | a failed classification is "other" and takes no branch |
| SttCapture.TriggersOf | speech2text/stt_capture.py:102-129 | in a trace of the shape a run produces, a trigger can only be the effect right after classification |
| SttCapture.SpeechPipeline.constructor | speech2text/stt_capture.py:111 | no files and no events at first |
| SttCapture.SpeechPipeline.RecordAudio | speech2text/stt_capture.py:20-29 | "command.wav" is on disk and a 10-second, 16 kHz recording is logged |
| SttCapture.SpeechPipeline.TranscribeWhisper | speech2text/stt_capture.py:32-47 | logs the request and returns the transcript or None |
| SttCapture.SpeechPipeline.DetectIntent | speech2text/stt_capture.py:50-78 | logs the request and returns the normalised label |
| SttCapture.SpeechPipeline.HandleCommand | speech2text/stt_capture.py:81-109 | returns the dispatched branch and logs exactly its effects |
| SttCapture.SpeechPipeline.ListenAndProcess | speech2text/stt_capture.py:111-135 | logs the run's trace; the clip is gone exactly when there was a transcript and removal worked; a failing removal is swallowed |
| HowtoGenerator.StripFences | speech2text/howto_generator.py:110-114 | a reply that does not start with a fence is unchanged; after a leading "```json" it is the stripped text up to the next fence (when that fence is not followed by a fourth backtick); after a leading plain fence it is the stripped text between the first two fences |
| HowtoGenerator.FencedResultHasNoFence | speech2text/howto_generator.py:111-114 | what is left of a fenced reply holds no fence |
| HowtoGenerator.JsonFenceRoundTrip | speech2text/howto_generator.py:111-112 | a backtick-free body after "```json" comes back stripped, whatever follows its closing fence, unless that text opens with a backtick |
| HowtoGenerator.PlainFenceRoundTrip | speech2text/howto_generator.py:113-114 | a backtick-free body between two plain fences comes back stripped, whatever follows the second fence |
| HowtoGenerator.FencedReplyBody | speech2text/howto_generator.py:108-112 | the reply is stripped before its fences are removed, and a json-fenced reply ending in a visible character still gives its stripped body |
| HowtoGenerator.JsonFenceRunOn | speech2text/howto_generator.py:111-112 | a closing fence that runs on into "```json" keeps one backtick: `split('```json')` cuts first |
| HowtoGenerator.StepHasFields | speech2text/howto_generator.py:154-155 | raises exactly when the step is not a container; otherwise true exactly when all five fields are present |
| HowtoGenerator.StepsHaveFields | speech2text/howto_generator.py:152-158 | the loop accepts only when every step is complete |
| HowtoGenerator.StepsHaveFieldsMeaning | speech2text/howto_generator.py:152-158 | the loop accepts exactly when every step is complete, and raises exactly at a first incomplete step that is not a container |
| HowtoGenerator.ValidateHowtoStructure | speech2text/howto_generator.py:143-158 | it accepts only valid guides (a dict with a title and five complete steps); it can raise only for a dict |
| HowtoGenerator.IsValidGuide | speech2text/howto_generator.py:143-158 | the reference shape of a guide: a dict with "title" and a list of exactly five steps, each holding the five fields |
| HowtoGenerator.ValidateMeaning | speech2text/howto_generator.py:143-158 | the validator accepts exactly the dicts with a title and a list of five complete steps |
| HowtoGenerator.ValidateRejectsShape | speech2text/howto_generator.py:145-148 | a non-dict, or a dict without "title" or "steps", is rejected |
| HowtoGenerator.ValidateRejectsLength | speech2text/howto_generator.py:149-150 | steps that are not a list of five are rejected |
| HowtoGenerator.GenerateHowtoGuide | speech2text/howto_generator.py:98-141 | a guide is always valid; a failure that carries details is the parse error; a failing model call is passed on as the error |
| HowtoGenerator.GuideMeaning | speech2text/howto_generator.py:98-141 | success exactly for a reply whose cleaned text parses to a valid guide, and then with that guide; a failure that carries details is always the parse error |
| HowtoGenerator.HowtoEndpoint | speech2text/howto_generator.py:170-191 | the status is 200, 400 or 500; 200 exactly for a guide, and that guide is valid |
| HowtoGenerator.EndpointStatus | speech2text/howto_generator.py:170-191 | 200 exactly for a guide; 400 exactly for a falsy body or a body without "transcription"; 500 otherwise |
| HowtoGenerator.EndpointForwardsGuide | speech2text/howto_generator.py:179-185 | a dict body holding "transcription" is answered with the guide outcome |
| TaskHelper.ExtractJson | task_helper.py:440-447 | the text handed on is never longer than the reply; from a json fence it is stripped; with neither a fence nor a `{` it is the reply |
| TaskHelper.FencedReply | task_helper.py:440-443 | a json-fenced body comes back stripped, whatever surrounds the fences |
| TaskHelper.UnclosedFence | task_helper.py:440-443 | without a closing fence the slice ends at index -1, losing the body's last character |
| TaskHelper.BraceSpan | task_helper.py:444-447 | without a json fence the text runs from the first `{` through the last `}`, or is empty when they are out of order |
| TaskHelper.BareObject | task_helper.py:444-447 | a bare object text is handed to the parser unchanged |
| TaskHelper.StepError | task_helper.py:199-201 | no exception exactly when the step's "id" and "instruction" can be read |
| TaskHelper.FirstStepError | task_helper.py:208-231 | no exception exactly when every step can be read; otherwise a step's exception |
| TaskHelper.PopupError | task_helper.py:187-201 | the popup can be built exactly when the steps are a non-empty list of readable steps |
| TaskHelper.ProcessTask | task_helper.py:436-470 | "API Key Missing" exactly without a client; a popup only for a non-empty list of readable steps; every error dialog starts with the failure prefix |
| TaskHelper.ProcessTaskMeaning | task_helper.py:382-470 | no key gives the key error; a popup opens exactly for a parsed dict with readable non-empty steps, titled by "task_title" or the task; empty steps give the break-down error |
| TaskHelper.Defaults | task_helper.py:455-456 | steps default to an empty list and the title to the task |
| TaskHelper.Submit | task_helper.py:316-322 | the stripped text is handed on exactly when it is not blank |
| TaskHelper.Navigate | task_helper.py:233-248 | without row clicks, each press moves the index by at most one |
| TaskHelper.NavigationStaysInBounds | task_helper.py:233-248 | from an index in range, Next, Previous and row clicks keep it in range |
| TaskHelper.ForwardPresses | task_helper.py:233-239 | k Next presses go k steps forward and stop at the last step |
| TaskHelper.BackwardPresses | task_helper.py:241-244 | k Previous presses go k steps back and stop at the first |
| TaskHelper.RowsFor | task_helper.py:208-231 | one row per step, numbered in order; at most one row is current; the rows drawn done are a prefix of the list |
| TaskHelper.DoneCountIsIndex | task_helper.py:212-214 | the number of rows drawn done is the index, held between 0 and the length |
| TaskHelper.CurrentRow | task_helper.py:212-214 | the one current row is the index's row, and a row is done exactly when it comes before it |
| TaskHelper.ScreenFor | task_helper.py:187-206 | one row per step; inside the list, the number of rows drawn done is the index |
| TaskHelper.Redraw | task_helper.py:187-206 | the progress label is always redrawn; for an index Python cannot subscript with, the step shown and the rows stay as before |
| TaskHelper.RedrawInside | task_helper.py:187-206 | Previous is enabled exactly off the first step, "Finish" shows exactly on the last, and the step's instruction is shown |
| TaskHelper.RedrawNegative | task_helper.py:246-248 | an unchecked negative jump shows a step counted from the end, with no row current or done |
| TaskHelper.StepGuidePopup.constructor | task_helper.py:36-49 | starts open on the first step, drawn |
| TaskHelper.StepGuidePopup.UpdateDisplay | task_helper.py:187-206 | redraws for the current index and changes nothing else |
| TaskHelper.StepGuidePopup.UpdateStepsList | task_helper.py:208-231 | rebuilds one row per step for the current index |
| TaskHelper.StepGuidePopup.NextStep | task_helper.py:233-239 | moves forward and redraws, or on the last step shows the completion message and closes, keeping the index |
| TaskHelper.StepGuidePopup.PreviousStep | task_helper.py:241-244 | moves back and redraws, unless on the first step |
| TaskHelper.StepGuidePopup.JumpToStep | task_helper.py:246-248 | sets the index unchecked and redraws |
| TaskHelper.StepGuidePopup.CloseWindow | task_helper.py:250-253 | calls the close callback when there is one, then closes |
| TaskHelperPopup.CardOf | task_helper_popup.py:206-236 | a card has its number and its text exactly when the step is readable |
| TaskHelperPopup.FirstUnreadable | task_helper_popup.py:206-236 | the steps before it are readable, and it is unreadable unless it is the end |
| TaskHelperPopup.Cards | task_helper_popup.py:206-236 | one card per step, in order; a card is complete exactly when its step is readable |
| TaskHelperPopup.StepsWindowFor | task_helper_popup.py:173-250 | a title exactly for a dict; the Done button exactly when no exception is reported, and then every card has its text |
| TaskHelperPopup.ShowSteps | task_helper_popup.py:173-250 | draws the window that `show_steps` builds |
| TaskHelperPopup.DrawCards | task_helper_popup.py:206-236 | draws the cards up to and including the first unreadable step, and reports that step's exception |
| TaskHelperPopup.ShowStepsMeaning | task_helper_popup.py:173-250 | the title, or "Your Task"; a readable list is drawn whole and in order; no "steps" draws no card |
| TaskHelperPopup.ProcessTask | task_helper_popup.py:101-106 | a blank task gives only the warning |
| TaskHelperPopup.ProcessTaskMeaning | task_helper_popup.py:101-171 | errors appear only for non-blank tasks, with the failure prefix; the window drawn is that of the parsed breakdown |
| TaskHelperGradio.Paragraphs | task_helper_gradio.py:72-73 | one paragraph per step |
| TaskHelperGradio.FirstStepErrorAt | task_helper_gradio.py:72-73 | the exception reported is that of the first unreadable step |
| TaskHelperGradio.FormatSteps | task_helper_gradio.py:68-75 | the header, then one paragraph per step |
| TaskHelperGradio.AppendSteps | task_helper_gradio.py:72-73 | the loop's accumulated text, or the first unreadable step's exception |
| TaskHelperGradio.MarkdownOfSteps | task_helper_gradio.py:71-78 | the header and the steps' paragraphs, or the error text for an unreadable step |
| TaskHelperGradio.Markdown | task_helper_gradio.py:68-78 | readable steps give a text that starts with the header; otherwise an error text |
| TaskHelperGradio.Answer | task_helper_gradio.py:60-78 | an error text for a parse failure or a value that is not a dict; a dict without "task_title" that gives no error is headed by the description |
| TaskHelperGradio.BreakDown | task_helper_gradio.py:23-78 | a blank description gives the prompt to enter one; a failing model call gives an error text |
| TaskHelperGradio.BreakDownTask | task_helper_gradio.py:23-78 | returns what `break_down_task` returns |
| TaskHelperGradio.AnswerShape | task_helper_gradio.py:65-78 | every answer for a parsed value starts with "# " or "Error: " |
| TaskHelperGradio.BreakDownShape | task_helper_gradio.py:26-27 | a blank description gives the prompt to enter one; any other answer starts with "# " or "Error: " |
| TaskHelperGradio.Defaults | task_helper_gradio.py:68-75 | without "task_title" and "steps" the answer is the header with the description |
| TaskHelperGradio.StepsInOrder | task_helper_gradio.py:71-73 | a readable list gives the header followed by each step's paragraph in order |
| EldaDesktop.IsStepByStepRequest | instructions/elda_desktop.py:503-509 | one of the nine phrases occurs in the lowercased message |
| EldaDesktop.StepRequestIgnoresCase | instructions/elda_desktop.py:503-509 | the detector ignores letter case |
| EldaDesktop.StepRequestIff | instructions/elda_desktop.py:503-509 | the message is a request exactly when one of the nine phrases occurs in it lowercased |
| EldaDesktop.HowDoIIsStepRequest | instructions/elda_desktop.py:503-509 | "How do I reset my password?" is a request |
| EldaDesktop.WhatTimeIsNoStepRequest | instructions/elda_desktop.py:503-509 | "What time is it?" is not |
| EldaDesktop.Route | instructions/elda_desktop.py:433-476 | blank input consults nothing; otherwise the stripped question goes to `generate_steps` exactly when it is a request, else to `ask_gemini` |
| EldaDesktop.RouteIgnoresPadding | instructions/elda_desktop.py:435 | surrounding blanks change neither whether nor where a question goes |
| EldaDesktop.SendMessage | instructions/elda_desktop.py:433-455 | blank input adds nothing; otherwise the user line and "Thinking..." are added and the stripped question is handed on |
| EldaDesktop.ProcessQuestion | instructions/elda_desktop.py:457-501 | a modal opens exactly for a request whose `generate_steps` reply gives "task", "steps" and their iteration, and it carries that task and those steps, with the guide message; a failing `generate_steps` gives its error; an answer is spoken only when speaking is on; errors are system lines starting "Error: " |
| EldaDesktop.ProcessAnswer | instructions/elda_desktop.py:457-501 | the chat deletes early, and a modal opens, only for a request whose `generate_steps` call succeeded |
| EldaDesktop.OneServiceConsulted | instructions/elda_desktop.py:461-476 | the reply depends only on the service the routing picks |
| EldaDesktop.GuideOpensModal | instructions/elda_desktop.py:461-472 | any reply of `generate_steps` whose "task", "steps" and iteration can be read opens the modal with that task and those steps, whatever else the dict holds and in whatever order |
| EldaDesktop.TaskAndStepsReadable | instructions/elda_desktop.py:462-471 | `{"task": t, "steps": [...]}` is such a reply |
| EldaDesktop.DeleteLast | instructions/elda_desktop.py:465-467 | the last message of the chat is removed; an empty chat stays empty |
| EldaDesktop.Finish | instructions/elda_desktop.py:465-494 | the chat keeps a prefix of what was shown and ends with the reply's line; one message goes, or two when the error came after the first deletion |
| EldaDesktop.ConversationStep | instructions/elda_desktop.py:433-501 | a blank input adds nothing; otherwise the chat ends with the user's line and then the reply's, except when reading the reply of `generate_steps` or building the modal raised: then the second deletion removes the user's line and only the error stays |
| EldaDesktop.FinishAfterSend | instructions/elda_desktop.py:447-494 | after the user's line and "Thinking...", the reply replaces "Thinking...", or replaces both when the deletion ran twice |
| EldaDesktop.MissingTaskReply | instructions/elda_desktop.py:461-494 | a request answered with `{"steps": []}` gives the error `'task'`, raised after the first deletion |
| EldaDesktop.MissingTaskLosesQuestion | instructions/elda_desktop.py:433-494 | for such a request, the chat ends with the error line alone: the user's question is gone |
| EldaDesktop.HowToCookIsStepRequest | instructions/elda_desktop.py:503-509 | "how to cook" is a request |
| EldaDesktop.HowToCookIsNormal | instructions/elda_desktop.py:434-436 | "how to cook" is stripped and not blank |
| EldaDesktop.HowToCookLosesQuestion | instructions/elda_desktop.py:433-494 | asking "how to cook" with the reply `{"steps": []}` leaves the chat as before plus "Error: 'task'" |
| EldaDesktop.CountChecked | instructions/elda_desktop.py:203-214 | the number of checked boxes is at most the number of boxes |
| EldaDesktop.CountCheckedUpdate | instructions/elda_desktop.py:203-208 | writing one box changes the count by exactly what that box gains or loses |
| EldaDesktop.AllChecked | instructions/elda_desktop.py:213-214 | the count equals the number of boxes exactly when every box is checked |
| EldaDesktop.NoneChecked | instructions/elda_desktop.py:167-169 | no box is checked at first |
| EldaDesktop.StepModal.constructor | instructions/elda_desktop.py:45-130 | one unchecked box per step, the count 0, the window titled "How to …" and open |
| EldaDesktop.StepModal.UpdateProgress | instructions/elda_desktop.py:223-229 | the text becomes "completed/total" when there are steps, and is unchanged for none |
| EldaDesktop.StepModal.CloseModal | instructions/elda_desktop.py:243-245 | the modal closes and nothing else changes |
| EldaDesktop.StepModal.AllStepsCompleted | instructions/elda_desktop.py:231-234 | shows the congratulations and closes |
| EldaDesktop.StepModal.RequestHelp | instructions/elda_desktop.py:236-241 | closes the modal |
| EldaDesktop.StepModal.ToggleStep | instructions/elda_desktop.py:203-214 | +1 for a checked box and -1 for an unchecked one; completion fires exactly when the count reaches the number of steps |
| EldaDesktop.StepModal.Click | instructions/elda_desktop.py:167-214 | a click flips one box and keeps the count right; the modal closes exactly when every box is checked |
| EldaDesktop.StepModal.CantCompleteStepAsWritten | instructions/elda_desktop.py:216-221 | the box is set and the count rises by one even when it was already checked |
| EldaDesktop.StepModal.CantCompleteStep | instructions/elda_desktop.py:216-221 | corrected: the box is set, the count stays right, and the modal closes exactly when every box is checked |
| EldaDesktop.DoubleCountExample | instructions/elda_desktop.py:167-221 | two steps, the first checked and then "Can't Complete" on it: the count is 2 and the modal closes with the second box unchecked |
| AppTest.Field | instructions/app_test.py:16 | a missing key gives "", a string value is stripped, and it raises for a non-dict body or a non-string value |
| AppTest.AnswerRoundTrip | instructions/app_test.py:22-27 | the question can be read back verbatim from the answer |
| AppTest.Ask | instructions/app_test.py:12-27 | replies are 200 or 400 |
| AppTest.AskMeaning | instructions/app_test.py:12-27 | a missing or blank question is 400; any other is 200 with the stripped question and the answer embedding it |
| AppTest.MockStepsJson | instructions/app_test.py:39-46 | the six fixed steps in order |
| AppTest.GenerateStepsEndpoint | instructions/app_test.py:29-53 | replies are 200 or 400, and a 200 always carries the six fixed steps |
| AppTest.GenerateStepsMeaning | instructions/app_test.py:29-53 | a missing or blank task is 400; any other is 200 with the cleaned task and the fixed steps |
| AppTest.Cleanup | instructions/app_test.py:49 | the cleaned task is never longer than the task and has no surrounding blanks |
| AppTest.CleanupWithoutPhrases | instructions/app_test.py:49 | a task without either phrase is only stripped |
| AppTest.CleanupHowTo | instructions/app_test.py:49 | "how to bake bread" becomes "bake bread" |
| AppTest.CleanupLeadingPhrase | instructions/app_test.py:49 | a task opening with "how to", with neither phrase after it, loses the phrase and is stripped |
| AppTest.PhraseCanRemain | instructions/app_test.py:49 | removal can join two halves into the phrase: "how thow too" becomes "how to" |
| AppTest.PhraseAloneGivesEmptyTask | instructions/app_test.py:33-49 | "how to" passes the blank check and comes back as an empty task |
| Tutorial.StepsNumbered | elda-app/renderer/App.jsx:5-41 | five steps; step i is numbered i+1 of 5, so the numbers are distinct |
| Tutorial.RoundedPercent | elda-app/renderer/app.js:56 | the nearest whole percentage, halves rounded up |
| Tutorial.PercentPerStep | elda-app/renderer/app.js:56 | the steps are at 20, 40, 60, 80 and 100 percent |
| Tutorial.AfterNext | elda-app/renderer/app.js:67-77 | one on below the last step, back to 0 from it |
| Tutorial.NextPressesCycle | elda-app/renderer/app.js:67-77 | k presses from the first step land on step k mod 5 |
| RendererApp.LabelsFor | elda-app/renderer/app.js:48-64 | "Finish" exactly on the last step, "Step n of 5", and the percentage 20·n |
| RendererApp.AfterAdvance | elda-app/renderer/app.js:91-96 | one on below the last step, never wrapping |
| RendererApp.AdvancesSaturate | elda-app/renderer/app.js:91-96 | k advance messages from the first step stop at the last |
| RendererApp.Renderer.constructor | elda-app/renderer/app.js:35-106 | starts at step 0 with its labels drawn |
| RendererApp.Renderer.UpdateUI | elda-app/renderer/app.js:48-64 | draws the labels of the current step |
| RendererApp.Renderer.NextClick | elda-app/renderer/app.js:67-78 | moves to the next step and signals it, or closes the popup and goes back to 0; the index stays in range |
| RendererApp.Renderer.HelpClick | elda-app/renderer/app.js:80-84 | signals for help and shows the alert; the step stays |
| RendererApp.Renderer.CloseClick | elda-app/renderer/app.js:86-88 | signals to close; the step stays |
| RendererApp.Renderer.AdvanceStep | elda-app/renderer/app.js:91-96 | one on below the last step, nothing signalled, the index in range |
| TutorialApp.StepNumberOfStep | elda-app/renderer/App.jsx:99 | a step entry's number is its step |
| TutorialApp.MarkCompleted | elda-app/renderer/App.jsx:97-103 | appends the step unless its number is there, and keeps the list free of duplicate numbers |
| TutorialApp.FreshRun | elda-app/renderer/App.jsx:94-110 | from a fresh start, k presses leave the first k steps in order, without duplicates |
| TutorialApp.LoadTutorialProgress | elda-app/renderer/App.jsx:44-52 | nothing saved gives null; a parse failure raises its error; a parsed value raises exactly when it is not an object; saved progress comes back as parsed, with a non-array list replaced by an empty one |
| TutorialApp.InitialState | elda-app/renderer/App.jsx:62-70 | nothing saved gives step 0 and []; any state accepted names a step; saved progress without an index throws at the first render |
| TutorialApp.ResumeSaved | elda-app/renderer/App.jsx:62-70 | a usable saved index resumes there, with its list when it is one and [] otherwise |
| TutorialApp.App.constructor | elda-app/renderer/App.jsx:62-72 | starts at the given step with help closed |
| TutorialApp.App.Props | elda-app/renderer/App.jsx:142-160 | `isLastStep` exactly on the last index, "Step n of 5", the step's title |
| TutorialApp.App.StepChanged | elda-app/renderer/App.jsx:90-92 | a step change closes the detailed help |
| TutorialApp.App.HandleNextStep | elda-app/renderer/App.jsx:94-129 | below the last step, marks it done, moves on and notifies; on the last, closes, clears the saved progress and resets to step 0 with []; no duplicates ever |
| TutorialApp.App.HandleNeedHelp | elda-app/renderer/App.jsx:131-133 | toggles the detailed help |
| TutorialApp.App.HandleClose | elda-app/renderer/App.jsx:135-140 | asks the host to close; the saved progress stays |

## Left out

- Windows and pages are not modelled: Tk, Gradio, React and plain DOM rendering, layout, colours, animation and scrolling. This includes the component that draws each tutorial card, and its saving of progress.
- Threads are not modelled. The background thread of the desktop chat and the loading windows are modelled in their sequential order only.
- Operating-system calls are inputs. Each `osascript` or `brightnessctl` call becomes a `Call`: it raised, or exited with a code. A read of the volume becomes a flag saying whether its output converts to an integer. File removal becomes a flag. The microphone recording is a logged event.
- The interactive loops of `volume.py` (lines 79-90) and `brightness.py` (lines 106-117) are not modelled. In `volume.py` an exception that leaves `parse_command` ends the loop and the program; `Volume.SystemVolume.ParseCommand` reports it as its `raised` result. `brightness.py` catches its exceptions.
- AI and network services are parameters. Gemini, Whisper and the WebSocket trigger give a value or raise. `json.loads` is an abstract parse function.
- JSON numbers are integers in the model. Objects are member lists, and a key looked up gets its last binding.
- `lower()` folds ASCII letters only. `\d` matches ASCII digits only.
- Floating point is left out:
  - the progress bars of the Tk popup, the desktop modal and the React card are not modelled;
  - `Tutorial.RoundedPercent` rounds the exact ratio, where JavaScript rounds a float.
- `Volume.SystemVolume.GetCurrentVolume`: a read that converts always gives the volume the model holds. The model does not capture `osascript` reporting a value other than the last one set.
- `Volume.SystemVolume.SetVolume`: when `osascript` fails, the volume is taken to be unchanged. The model does not capture a set command that fails after changing the volume.
- `PyJson.Format` and `PyJson.Repr` do not escape quotes, backslashes or control characters, and always quote a string with `'`. Python's `repr` switches to `"` when the string holds a `'`, and escapes. `GuideMessage`, the modal title and the step lines of the desktop chat and the task helpers use `Format`.
- `HowtoGenerator.StripFences`: when the fence after "```json" runs on into a second "```json" (as in "````json"), the contract does not give the result in general. `HowtoGenerator.JsonFenceRunOn` gives it for one shape of reply.
- `Brightness.Percent`: computed on exact integers. The source's float product could differ by one at a rounding boundary.
- `TutorialApp.InitialState`: JavaScript coerces a saved index that is a string or a fraction. The model raises for any index that is not an integer naming a step.
- `TutorialApp.MarkCompleted`: a saved entry whose `step` is not a number never matches. The model does not reproduce JavaScript's errors for `null` entries.
- `EldaDesktop.ProcessQuestion`: when `steps` cannot be iterated, the source leaves a half-drawn modal before reporting the error. The model reports the error only.
- `EldaDesktop.DeleteLast`: `chat_display.delete("end-4l", "end-1l")` removes the three text lines of the last message (a blank line, the text and a blank line). The model removes the last chat line. A message whose text spans several lines is not modelled.
- `EldaDesktop.StepModal.CantCompleteStepAsWritten`: the information box is modelled as a dialog text.
- `AppTest.Ask`: Flask's 500 page for a handler that raises is modelled as `Crashed`. Content-type errors of `get_json` are not modelled.
- The ten-second recording, the sample data and the WAV encoding are not modelled. Only the file name and the parameters are kept.
- The detailed help texts of the React tutorial steps are not modelled. They are shown, not decided on.

## Findings

| source | as written | input that shows it | evidently intended | confidence | as-written member | corrected member |
|---|---|---|---|---|---|---|
| instructions/elda_desktop.py:216-218 | `cant_complete_step` sets the step's variable to True. The write trace (167-169) then calls `toggle_step`, which adds one even when the box was already checked (203-214). | Two steps: check step 1, then press "Can't Complete" on step 1. The counter becomes 2, so the congratulations show and the modal closes with step 2 unchecked. | Marking a step that is already checked leaves the count at the number of checked boxes. | not executed | EldaDesktop.StepModal.CantCompleteStepAsWritten, EldaDesktop.DoubleCountExample | EldaDesktop.StepModal.CantCompleteStep |
